/** The pure logic of `src/pages/SignupPage.jsx`: the form it starts with,
    the submit guard, the payload it hands to `signup`, and where the page
    goes with the result. */
module SignupPage {
  import opened Common
  import opened Form
  import UserModel
  import UC = UserController
  import AC = AuthContext

  const TextFields: seq<Field> := [Name, Email, Password, ConfirmPassword, StudyStyle, AcademicGoal]
  const ListFields: seq<Field> := [Subjects, TimeSlots]

  /** The choices the page offers for the three schema enums. */
  const StudyStyleOptions: seq<string> :=
    ["Text-based", "Video calls", "Group study", "Silent study", "Discussion forums"]
  const TimeSlotOptions: seq<string> :=
    ["Morning (6AM-10AM)", "Late Morning (10AM-2PM)", "Afternoon (2PM-6PM)",
     "Evening (6PM-10PM)", "Night (10PM-2AM)"]
  const AcademicGoalOptions: seq<string> :=
    ["Exam preparation", "Project work", "Learning new skills", "Research assistance", "Homework help"]

  /** The initial `formData`: six empty strings and two empty lists, and no
      other field. */
  function InitialForm(): (r: Fields)
    ensures Shaped(r, TextFields, ListFields)
    ensures forall k :: k in r <==> k in TextFields || k in ListFields
    ensures forall k :: k in TextFields ==> r[k] == Text("")
    ensures forall k :: k in ListFields ==> r[k] == Items([])
  {
    map[Name := Text(""), Email := Text(""), Password := Text(""), ConfirmPassword := Text(""),
        Subjects := Items([]), StudyStyle := Text(""), TimeSlots := Items([]), AcademicGoal := Text("")]
  }

  /** `userData`: the seven profile fields, and no confirmation. */
  datatype Payload = Payload(
    name: string,
    email: string,
    password: string,
    subjects: seq<string>,
    studyStyle: string,
    timeSlots: seq<string>,
    academicGoal: string)

  function PayloadOf(form: Fields): Payload
    requires Shaped(form, TextFields, ListFields)
  {
    Payload(form[Name].text, form[Email].text, form[Password].text, form[Subjects].items,
            form[StudyStyle].text, form[TimeSlots].items, form[AcademicGoal].text)
  }

  /** The form a payload and a confirmation would have been typed into. */
  function FormOf(p: Payload, confirm: string): Fields
  {
    map[Name := Text(p.name), Email := Text(p.email), Password := Text(p.password),
        ConfirmPassword := Text(confirm), Subjects := Items(p.subjects), StudyStyle := Text(p.studyStyle),
        TimeSlots := Items(p.timeSlots), AcademicGoal := Text(p.academicGoal)]
  }

  /** Every payload comes from a form, and its seven fields survive the trip
      through it whatever the confirmation says. */
  lemma PayloadRoundTrip(p: Payload, confirm: string)
    ensures Shaped(FormOf(p, confirm), TextFields, ListFields)
    ensures PayloadOf(FormOf(p, confirm)) == p
  {
  }

  /** The confirmation is not part of what is sent. */
  lemma PayloadIgnoresConfirm(form: Fields, value: string)
    requires Shaped(form, TextFields, ListFields)
    ensures Shaped(HandleChange(form, ConfirmPassword, value), TextFields, ListFields)
    ensures PayloadOf(HandleChange(form, ConfirmPassword, value)) == PayloadOf(form)
  {
    HandleChangeKeepsShape(form, TextFields, ListFields, ConfirmPassword, value);
  }

  /** Where the page goes once `signup` has answered. `result.success` on
      an `undefined` result throws a `TypeError`. */
  datatype Next = ToDashboard | StayOnPage | TypeError

  function AfterSignup(result: Option<AC.AuthResult>): (r: Next)
    ensures r == ToDashboard <==> result.Some? && result.value.success
    ensures r == TypeError <==> result.None?
  {
    match result
    case None => TypeError
    case Some(res) => if res.success then ToDashboard else StayOnPage
  }

  /** One submission: the `signup` call made (none when the passwords
      differ) and where the page goes. */
  datatype Submission = Submission(signup: Option<AC.SignupOutcome>, next: Next)

  /** `handleSubmit` against `signup` as written. The registration and the
      follow-up login replies are parameters. */
  function Submit(form: Fields, st: AC.AuthState,
                  register: AC.Reply<AC.RegisterResponse>, login: AC.Reply<AC.LoginResponse>): (r: Submission)
    requires Shaped(form, TextFields, ListFields)
    ensures r.signup.None? <==> form[Password] != form[ConfirmPassword]
    ensures r.signup.None? ==> r.next == StayOnPage
    ensures r.signup.Some? && r.signup.value.loginCall.Some? ==>
              r.signup.value.loginCall.value == AC.Credentials(form[Email].text, form[Password].text)
    ensures r.next == ToDashboard <==>
              && form[Password] == form[ConfirmPassword]
              && register.Replied? && AC.Registered(register.body) && login.Replied? && login.body.user.Some?
  {
    if form[Password].text != form[ConfirmPassword].text then Submission(None, StayOnPage)
    else
      var p := PayloadOf(form);
      var outcome := AC.Signup(st, p.email, p.password, register, login);
      Submission(Some(outcome), AfterSignup(outcome.result))
  }

  /** `handleSubmit` against the corrected `signup`: the page never reads a
      field of `undefined`, and lands on the dashboard in exactly the same
      cases. */
  function SubmitCorrected(form: Fields, st: AC.AuthState,
                           register: AC.Reply<AC.RegisterResponse>, login: AC.Reply<AC.LoginResponse>): (r: Submission)
    requires Shaped(form, TextFields, ListFields)
    ensures r.next != TypeError
    ensures r.signup.None? <==> form[Password] != form[ConfirmPassword]
    ensures r.next == ToDashboard <==> Submit(form, st, register, login).next == ToDashboard
    ensures Submit(form, st, register, login).next != TypeError ==> r == Submit(form, st, register, login)
  {
    if form[Password].text != form[ConfirmPassword].text then Submission(None, StayOnPage)
    else
      var p := PayloadOf(form);
      var outcome := AC.SignupCorrected(st, p.email, p.password, register, login);
      Submission(Some(outcome), AfterSignup(outcome.result))
  }

  /** With `signup` as written, a matching form, a registration that
      succeeds and a follow-up login that answers without a user end in a
      `TypeError`. */
  lemma SubmitCanThrow(st: AC.AuthState)
    ensures var form := FormOf(Payload("Ada", "ada@example.com", "pw", [], "Text-based", [], "Project work"), "pw");
            Shaped(form, TextFields, ListFields) &&
            Submit(form, st, AC.Replied(AC.RegisterResponse(Some("65f0c1"), None)),
                   AC.Replied(AC.LoginResponse(None, Some("Error logging in")))).next == TypeError
  {
    PayloadRoundTrip(Payload("Ada", "ada@example.com", "pw", [], "Text-based", [], "Project work"), "pw");
  }

  /** What `registerUser` receives from this page: both selects are sent as
      strings, so they arrive present. */
  function RegisterBodyOf(p: Payload): UC.RegisterBody
  {
    UC.RegisterBody(p.name, p.email, p.password, p.subjects, Some(p.studyStyle), p.timeSlots, Some(p.academicGoal))
  }

  /** What the browser's `required` attributes and the option lists let
      through: name, email and password filled, both selects on a listed
      option, every time slot one of the boxes. */
  predicate BrowserAccepts(p: Payload)
  {
    && p.name != "" && p.email != "" && p.password != ""
    && p.studyStyle in StudyStyleOptions
    && p.academicGoal in AcademicGoalOptions
    && (forall s :: s in p.timeSlots ==> s in TimeSlotOptions)
  }

  /** The page's option lists agree with the schema: whatever the browser
      lets through is a valid user document, so a new email registers with
      201 and never with the 500 of a failed validation. */
  lemma AcceptedPayloadRegisters(p: Payload, users: seq<UserModel.User>, newId: UserModel.Id)
    requires BrowserAccepts(p)
    ensures UserModel.ValidUser(UC.NewUser(RegisterBodyOf(p), newId))
    ensures (forall i :: 0 <= i < |users| ==> users[i].email != p.email) ==>
              UC.Register(users, RegisterBodyOf(p), newId).0.Ok?
  {
    assert StudyStyleOptions == UserModel.StudyStyles;
    assert TimeSlotOptions == UserModel.TimeSlots;
    assert AcademicGoalOptions == UserModel.AcademicGoals;
  }
}
