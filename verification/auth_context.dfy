/** The session state of `src/contexts/AuthContext.jsx`: `login`, `signup`
    and `logout`. What the awaited API calls resolve with is a parameter;
    `localStorage` is not modelled. */
module AuthContext {
  import opened Common
  import opened UserModel
  import UC = UserController

  /** The `user` object the client keeps. A login reply carries the id as
      `id`; the pages read `user._id || user.id`. Absent fields are `None`. */
  datatype SessionUser = SessionUser(
    mongoId: Option<Id>,
    id: Id,
    name: Option<string>,
    email: Option<string>,
    subjects: Option<seq<string>>,
    studyStyle: Option<string>,
    timeSlots: Option<seq<string>>,
    academicGoal: Option<string>)

  /** `user._id || user.id`. */
  function SelfId(u: SessionUser): (r: Id)
    ensures u.mongoId.Some? && u.mongoId.value != "" ==> r == u.mongoId.value
    ensures u.mongoId.None? || u.mongoId.value == "" ==> r == u.id
  {
    if u.mongoId.Some? && u.mongoId.value != "" then u.mongoId.value else u.id
  }

  /** An awaited `fetch(...).json()`: a JSON body, or an exception. */
  datatype Reply<+T> = Replied(body: T) | Threw

  /** The fields of a login reply the context reads. */
  datatype LoginResponse = LoginResponse(user: Option<SessionUser>, message: Option<string>)

  /** The fields of a registration reply the context reads. */
  datatype RegisterResponse = RegisterResponse(mongoId: Option<Id>, message: Option<string>)

  datatype AuthState = AuthState(user: Option<SessionUser>, loading: bool, error: Option<string>)

  /** `{ success, error }`. */
  datatype AuthResult = AuthResult(success: bool, error: Option<string>)

  datatype Credentials = Credentials(email: string, password: string)

  /** What `signup` did: what it returned (`None` is `undefined`), the state
      it left, and the login call it made, if any. */
  datatype SignupOutcome = SignupOutcome(result: Option<AuthResult>, state: AuthState, loginCall: Option<Credentials>)

  const LoginError := "An error occurred during login"
  const SignupError := "An error occurred during signup"

  const Initial := AuthState(None, false, None)

  /** `login`: the user is taken exactly when the reply has one; otherwise
      the error is the reply's message, or the fixed string when the call
      throws. Loading is over in every case. */
  function Login(st: AuthState, reply: Reply<LoginResponse>): (r: (AuthResult, AuthState))
    ensures !r.1.loading
    ensures r.0.success <==> reply.Replied? && reply.body.user.Some?
    ensures r.0.success ==> r.0.error.None? && r.1 == AuthState(reply.body.user, false, None)
    ensures reply.Replied? && reply.body.user.None? ==>
              && r.0 == AuthResult(false, reply.body.message)
              && r.1 == AuthState(st.user, false, reply.body.message)
    ensures reply.Threw? ==>
              && r.0 == AuthResult(false, Some(LoginError))
              && r.1 == AuthState(st.user, false, Some(LoginError))
  {
    match reply
    case Threw => (AuthResult(false, Some(LoginError)), AuthState(st.user, false, Some(LoginError)))
    case Replied(data) =>
      if data.user.Some? then (AuthResult(true, None), AuthState(data.user, false, None))
      else (AuthResult(false, data.message), AuthState(st.user, false, data.message))
  }

  /** `data._id` is truthy. */
  predicate Registered(data: RegisterResponse)
  {
    data.mongoId.Some? && data.mongoId.value != ""
  }

  /** `signup` as written: a registration reply without an id fails with
      its message and no login; one with an id is followed by a login with
      the same email and password. When that login brings no user the
      function falls off the end and returns `undefined`, leaving the user
      and the error as they were reset. */
  function Signup(st: AuthState, email: string, password: string,
                  register: Reply<RegisterResponse>, login: Reply<LoginResponse>): (r: SignupOutcome)
    ensures !r.state.loading
    ensures r.loginCall.Some? <==> register.Replied? && Registered(register.body)
    ensures r.loginCall.Some? ==> r.loginCall.value == Credentials(email, password)
    ensures r.result.None? <==>
              register.Replied? && Registered(register.body) && login.Replied? && login.body.user.None?
    ensures r.result.None? ==> r.state == AuthState(st.user, false, None)
    ensures r.result.Some? && r.result.value.success <==>
              register.Replied? && Registered(register.body) && login.Replied? && login.body.user.Some?
    ensures r.result.Some? && r.result.value.success ==> r.state == AuthState(login.body.user, false, None)
    ensures register.Replied? && !Registered(register.body) ==>
              && r.result == Some(AuthResult(false, register.body.message))
              && r.state == AuthState(st.user, false, register.body.message)
    ensures register.Threw? || (register.Replied? && Registered(register.body) && login.Threw?) ==>
              && r.result == Some(AuthResult(false, Some(SignupError)))
              && r.state == AuthState(st.user, false, Some(SignupError))
  {
    match register
    case Threw => SignupOutcome(Some(AuthResult(false, Some(SignupError))), AuthState(st.user, false, Some(SignupError)), None)
    case Replied(data) =>
      if !Registered(data) then
        SignupOutcome(Some(AuthResult(false, data.message)), AuthState(st.user, false, data.message), None)
      else
        var call := Some(Credentials(email, password));
        match login
        case Threw => SignupOutcome(Some(AuthResult(false, Some(SignupError))), AuthState(st.user, false, Some(SignupError)), call)
        case Replied(loginData) =>
          if loginData.user.Some? then
            SignupOutcome(Some(AuthResult(true, None)), AuthState(loginData.user, false, None), call)
          else
            SignupOutcome(None, AuthState(st.user, false, None), call)
  }

  /** The `undefined` return is reachable: a registration that succeeds
      followed by a login that answers with an error body, such as the 500
      reply `loginUser` sends when the database query fails. */
  lemma SignupCanReturnUndefined(st: AuthState, email: string, password: string)
    ensures Signup(st, email, password,
                   Replied(RegisterResponse(Some("65f0c1"), None)),
                   Replied(LoginResponse(None, Some("Error logging in")))).result.None?
  {
  }

  /** `signup` with the missing branch filled in: a follow-up login without
      a user reports failure with the login reply's message, as the other
      failure paths do. Everything else is as written. */
  function SignupCorrected(st: AuthState, email: string, password: string,
                           register: Reply<RegisterResponse>, login: Reply<LoginResponse>): (r: SignupOutcome)
    ensures r.result.Some?
    ensures !r.state.loading
    ensures Signup(st, email, password, register, login).result.Some? ==>
              r == Signup(st, email, password, register, login)
    ensures Signup(st, email, password, register, login).result.None? ==>
              && r.result == Some(AuthResult(false, login.body.message))
              && r.state == AuthState(st.user, false, login.body.message)
              && r.loginCall == Some(Credentials(email, password))
  {
    var written := Signup(st, email, password, register, login);
    if written.result.Some? then written
    else SignupOutcome(Some(AuthResult(false, login.body.message)), AuthState(st.user, false, login.body.message),
                       written.loginCall)
  }

  /** `logout`: the user is gone; loading and error are untouched. */
  function Logout(st: AuthState): (r: AuthState)
    ensures r.user.None?
    ensures r.loading == st.loading && r.error == st.error
  {
    st.(user := None)
  }

  /** The client's view of a login user: the id arrives as `id`. */
  function FromLoginUser(u: UC.LoginUser): SessionUser
  {
    SessionUser(None, u.id, Some(u.name), Some(u.email), Some(u.subjects), u.studyStyle,
                Some(u.timeSlots), u.academicGoal)
  }

  /** The JSON body of a `loginUser` reply, as far as the context reads it. */
  function LoginJson(r: Response<UC.LoginReply>): LoginResponse
  {
    match r
    case Ok(_, reply) => LoginResponse(Some(FromLoginUser(reply.user)), Some(reply.message))
    case Error(_, message) => LoginResponse(None, Some(message))
  }

  /** The JSON body of a `registerUser` reply, as far as the context reads it:
      the saved document has an `_id` and no `message`. */
  function RegisterJson(r: Response<User>): RegisterResponse
  {
    match r
    case Ok(_, u) => RegisterResponse(Some(u.id), None)
    case Error(_, message) => RegisterResponse(None, Some(message))
  }

  /** Against the backend's handlers: logging in takes the user exactly when
      the credentials match the first user with the email, and the session
      id is that user's id. */
  lemma LoginAgainstBackend(st: AuthState, users: seq<User>, email: string, password: string)
    ensures var r := Login(st, Replied(LoginJson(UC.Login(users, email, password))));
            && (r.0.success <==> IndexOfEmail(users, email).Some? &&
                                 users[IndexOfEmail(users, email).value].password == password)
            && (r.0.success ==> SelfId(r.1.user.value) == users[IndexOfEmail(users, email).value].id)
            && (!r.0.success ==> r.1.error == Some(UC.InvalidCredentials) && r.1.user == st.user)
  {
  }

  /** Against the backend's handlers: when registration succeeds, the
      follow-up login succeeds too, so `signup` reports success and the
      session user is the new user. The `undefined` branch needs a login
      reply the sequential backend does not give. */
  lemma SignupAgainstBackend(st: AuthState, users: seq<User>, body: UC.RegisterBody, newId: Id)
    requires newId != ""
    ensures var reg := UC.Register(users, body, newId);
            var after := reg.1;
            var r := Signup(st, body.email, body.password, Replied(RegisterJson(reg.0)),
                            Replied(LoginJson(UC.Login(after, body.email, body.password))));
            && (r.result.Some? && r.result.value.success <==> reg.0.Ok?)
            && (reg.0.Ok? ==> SelfId(r.state.user.value) == newId)
            && (reg.0.Error? ==> r.result == Some(AuthResult(false, Some(reg.0.message))) && r.loginCall.None?)
  {
    var reg := UC.Register(users, body, newId);
    if reg.0.Ok? {
      UC.RegisterThenLoginSucceeds(users, body, newId);
    }
  }
}
