/** The user document (`backend/models/User.js`) and the schema that Mongoose
    enforces on `save()`, written as a validator, plus the lookups the
    controllers perform on the user collection. */
module UserModel {
  import opened Common

  /** A document id. ObjectIds and their string forms compare as one here. */
  type Id = string

  datatype User = User(
    id: Id,
    name: string,
    email: string,
    password: string,
    subjects: seq<string>,
    studyStyle: Option<string>,
    timeSlots: seq<string>,
    academicGoal: Option<string>,
    profilePicture: Option<string>,
    friends: seq<Id>)

  /** The `enum` of `studyStyle`. */
  const StudyStyles: seq<string> :=
    ["Text-based", "Video calls", "Group study", "Silent study", "Discussion forums"]

  /** The `enum` of every `timeSlots` entry. */
  const TimeSlots: seq<string> :=
    ["Morning (6AM-10AM)", "Late Morning (10AM-2PM)", "Afternoon (2PM-6PM)",
     "Evening (6PM-10PM)", "Night (10PM-2AM)"]

  /** The `enum` of `academicGoal`. */
  const AcademicGoals: seq<string> :=
    ["Exam preparation", "Project work", "Learning new skills", "Research assistance", "Homework help"]

  /** A `required: true` String path: Mongoose rejects both a missing value
      and the empty string. */
  predicate Present(s: string)
  {
    s != ""
  }

  /** An optional enum path: absent, or one of the listed values. */
  predicate InEnum(v: Option<string>, values: seq<string>)
  {
    v.Some? ==> v.value in values
  }

  /** Every constraint the schema places on one document. `subjects` are
      free strings and `friends` any list of ids, so neither is checked. */
  predicate ValidUser(u: User)
  {
    && Present(u.name)
    && Present(u.email)
    && Present(u.password)
    && InEnum(u.studyStyle, StudyStyles)
    && SlotsListed(u.timeSlots)
    && InEnum(u.academicGoal, AcademicGoals)
  }

  /** A schema path that can fail validation. */
  datatype Path = NamePath | EmailPath | PasswordPath | StudyStylePath | TimeSlotsPath | AcademicGoalPath

  /** The report of one path's validator: the path when it fails. */
  function Check(ok: bool, path: Path): (r: seq<Path>)
    ensures r == [] <==> ok
    ensures path in r <==> !ok
    ensures forall p :: p in r ==> p == path
  {
    if ok then [] else [path]
  }

  /** Every slot is one of the listed values. */
  predicate SlotsListed(slots: seq<string>)
  {
    forall s :: s in slots ==> s in TimeSlots
  }

  /** The schema paths whose validator fails, in schema order: what the
      `ValidationError` that `save()` throws would list. */
  function Validate(u: User): (errors: seq<Path>)
    ensures |errors| == 0 <==> ValidUser(u)
    ensures NamePath in errors <==> !Present(u.name)
    ensures EmailPath in errors <==> !Present(u.email)
    ensures PasswordPath in errors <==> !Present(u.password)
    ensures StudyStylePath in errors <==> !InEnum(u.studyStyle, StudyStyles)
    ensures TimeSlotsPath in errors <==> exists s :: s in u.timeSlots && s !in TimeSlots
    ensures AcademicGoalPath in errors <==> !InEnum(u.academicGoal, AcademicGoals)
  {
    var a := Check(Present(u.name), NamePath);
    var b := Check(Present(u.email), EmailPath);
    var c := Check(Present(u.password), PasswordPath);
    var d := Check(InEnum(u.studyStyle, StudyStyles), StudyStylePath);
    var e := Check(SlotsListed(u.timeSlots), TimeSlotsPath);
    var f := Check(InEnum(u.academicGoal, AcademicGoals), AcademicGoalPath);
    var errors := (a + b + c) + (d + e + f);
    assert |errors| == 0 <==> a == [] && b == [] && c == [] && d == [] && e == [] && f == [];
    errors
  }

  /** `unique: true` on `email`, and distinct document ids. */
  predicate UniqueEmails(users: seq<User>)
  {
    forall i, j :: 0 <= i < j < |users| ==> users[i].email != users[j].email
  }

  predicate UniqueIds(users: seq<User>)
  {
    forall i, j :: 0 <= i < j < |users| ==> users[i].id != users[j].id
  }

  predicate HasId(users: seq<User>, id: Id)
  {
    exists i :: 0 <= i < |users| && users[i].id == id
  }

  /** `User.findById(id)`: the position of the document with that id. */
  function IndexOfId(users: seq<User>, id: Id): (r: Option<nat>)
    ensures r.None? <==> !HasId(users, id)
    ensures r.Some? ==> r.value < |users| && users[r.value].id == id
  {
    FirstIndex(users, (u: User) => u.id == id)
  }

  /** `User.findOne({ email })`: the first document with that email. */
  function IndexOfEmail(users: seq<User>, email: string): (r: Option<nat>)
    ensures r.None? <==> forall i :: 0 <= i < |users| ==> users[i].email != email
    ensures r.Some? ==> r.value < |users| && users[r.value].email == email
    ensures r.Some? ==> forall i :: 0 <= i < r.value ==> users[i].email != email
  {
    FirstIndex(users, (u: User) => u.email == email)
  }
}
