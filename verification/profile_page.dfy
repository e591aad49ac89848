/** The pure logic of `src/pages/ProfilePage.jsx`: the profile form filled
    from the session user, its two change handlers (shared with the signup
    form), the edit toggle and `handleSave`. */
module ProfilePage {
  import opened Common
  import opened Form
  import UC = UserController
  import AC = AuthContext

  const TextFields: seq<Field> := [Name, Email, StudyStyle, AcademicGoal, ProfilePicture]
  const ListFields: seq<Field> := [Subjects, TimeSlots]

  /** `value || ''` for an optional string: absent and empty both read as
      the empty string. */
  function TextOr(v: Option<string>): (r: string)
    ensures r != "" ==> v == Some(r)
    ensures v.Some? ==> r == v.value
  {
    if v.Some? then v.value else ""
  }

  /** A profile form with the given values and an empty picture. */
  function MakeData(name: string, email: string, subjects: seq<string>, studyStyle: string,
                    timeSlots: seq<string>, academicGoal: string): (r: Fields)
    ensures Shaped(r, TextFields, ListFields)
    ensures forall k :: k in r <==> k in TextFields || k in ListFields
    ensures r[Name] == Text(name) && r[Email] == Text(email)
    ensures r[Subjects] == Items(subjects) && r[TimeSlots] == Items(timeSlots)
    ensures r[StudyStyle] == Text(studyStyle) && r[AcademicGoal] == Text(academicGoal)
    ensures r[ProfilePicture] == Text("")
  {
    map[Name := Text(name), Email := Text(email), Subjects := Items(subjects), StudyStyle := Text(studyStyle),
        TimeSlots := Items(timeSlots), AcademicGoal := Text(academicGoal), ProfilePicture := Text("")]
  }

  /** The initial `profileData`. A list is kept whenever it is present, even
      empty (an array is truthy); a string is kept when present and
      non-empty; the picture always starts empty. With no user, every field
      is empty. */
  function InitialData(user: Option<AC.SessionUser>): (r: Fields)
    ensures Shaped(r, TextFields, ListFields)
    ensures forall k :: k in r <==> k in TextFields || k in ListFields
    ensures r[ProfilePicture] == Text("")
    ensures user.None? ==>
              && (forall k :: k in TextFields ==> r[k] == Text(""))
              && (forall k :: k in ListFields ==> r[k] == Items([]))
    ensures user.Some? ==>
              && (r[Name].text != "" ==> user.value.name == Some(r[Name].text))
              && (r[Email].text != "" ==> user.value.email == Some(r[Email].text))
              && (r[StudyStyle].text != "" ==> user.value.studyStyle == Some(r[StudyStyle].text))
              && (r[AcademicGoal].text != "" ==> user.value.academicGoal == Some(r[AcademicGoal].text))
              && r[Subjects].items == user.value.subjects.GetOr([])
              && r[TimeSlots].items == user.value.timeSlots.GetOr([])
    ensures user.Some? ==>
              && r[Name] == Text(TextOr(user.value.name))
              && r[Email] == Text(TextOr(user.value.email))
              && r[StudyStyle] == Text(TextOr(user.value.studyStyle))
              && r[AcademicGoal] == Text(TextOr(user.value.academicGoal))
  {
    match user
    case None => MakeData("", "", [], "", [], "")
    case Some(u) =>
      MakeData(TextOr(u.name), TextOr(u.email), u.subjects.GetOr([]), TextOr(u.studyStyle),
               u.timeSlots.GetOr([]), TextOr(u.academicGoal))
  }

  /** For a user who logged in, the form shows exactly what the login reply
      carried: name, email, both lists, and the two selects (empty when
      unset). */
  lemma InitialDataShowsLoginUser(u: UC.LoginUser)
    ensures var r := InitialData(Some(AC.FromLoginUser(u)));
            && r[Name] == Text(u.name) && r[Email] == Text(u.email)
            && r[Subjects] == Items(u.subjects) && r[TimeSlots] == Items(u.timeSlots)
            && r[StudyStyle] == Text(u.studyStyle.GetOr(""))
            && r[AcademicGoal] == Text(u.academicGoal.GetOr(""))
  {
  }

  /** The page: the form and whether it is in editing mode. */
  datatype Profile = Profile(data: Fields, editing: bool)

  function Initial(user: Option<AC.SessionUser>): (r: Profile)
    ensures !r.editing
    ensures Shaped(r.data, TextFields, ListFields)
  {
    Profile(InitialData(user), false)
  }

  /** The Edit / Cancel button: flips the mode, keeps the form. */
  function ToggleEditing(p: Profile): (r: Profile)
    ensures r.editing != p.editing
    ensures r.data == p.data
  {
    p.(editing := !p.editing)
  }

  /** `handleSave`: leaves editing mode. Nothing is sent and the form is
      kept as it is. */
  function HandleSave(p: Profile): (r: Profile)
    ensures !r.editing
    ensures r.data == p.data
  {
    p.(editing := false)
  }

  /** Edits made while editing survive saving: after any text edit and any
      box ticked or cleared, the form saved is the form edited. */
  lemma SaveKeepsEdits(p: Profile, name: Field, value: string, field: Field, option: string, checked: bool)
    requires Shaped(p.data, TextFields, ListFields)
    requires name in TextFields && field in ListFields
    ensures var edited := HandleMultiSelect(HandleChange(p.data, name, value), field, option, checked);
            && HandleSave(p.(data := edited)).data[name] == Text(value)
            && HandleSave(p.(data := edited)).data[field] == Items(Toggle(p.data[field].items, option, checked))
            && Shaped(HandleSave(p.(data := edited)).data, TextFields, ListFields)
  {
    HandleChangeKeepsShape(p.data, TextFields, ListFields, name, value);
    HandleMultiSelectKeepsShape(HandleChange(p.data, name, value), TextFields, ListFields, field, option, checked);
  }
}
