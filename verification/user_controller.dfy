/** Registration, login and the user listings of
    `backend/controllers/userController.js`, as transitions over the user
    collection kept in insertion order. */
module UserController {
  import opened Common
  import opened UserModel

  /** The JSON body of `POST /users/register`. */
  datatype RegisterBody = RegisterBody(
    name: string,
    email: string,
    password: string,
    subjects: seq<string>,
    studyStyle: Option<string>,
    timeSlots: seq<string>,
    academicGoal: Option<string>)

  /** A user document as `find(..., '-password')` returns it: every path
      but the password. */
  datatype PublicUser = PublicUser(
    id: Id,
    name: string,
    email: string,
    subjects: seq<string>,
    studyStyle: Option<string>,
    timeSlots: seq<string>,
    academicGoal: Option<string>,
    profilePicture: Option<string>,
    friends: seq<Id>)

  /** The `user` object of a successful login. */
  datatype LoginUser = LoginUser(
    id: Id,
    name: string,
    email: string,
    subjects: seq<string>,
    studyStyle: Option<string>,
    timeSlots: seq<string>,
    academicGoal: Option<string>)

  /** The body of a successful login: `{ message, user }`. */
  datatype LoginReply = LoginReply(message: string, user: LoginUser)

  const AlreadyExists := "User already exists with this email"
  const RegisterFailed := "Error registering user"
  const InvalidCredentials := "Invalid credentials"
  const LoginSuccessful := "Login successful"
  const UserNotFound := "User not found"

  function WithoutPassword(u: User): PublicUser
  {
    PublicUser(u.id, u.name, u.email, u.subjects, u.studyStyle, u.timeSlots,
               u.academicGoal, u.profilePicture, u.friends)
  }

  /** Putting the password back: the inverse of `WithoutPassword`. */
  function WithPassword(p: PublicUser, password: string): User
  {
    User(p.id, p.name, p.email, password, p.subjects, p.studyStyle, p.timeSlots,
         p.academicGoal, p.profilePicture, p.friends)
  }

  /** The projection drops the password and nothing else. */
  lemma WithoutPasswordDropsOnlyPassword(u: User)
    ensures WithPassword(WithoutPassword(u), u.password) == u
  {
  }

  /** The document `new User({...})` builds from a registration body: no
      profile picture and no friends yet. */
  function NewUser(body: RegisterBody, id: Id): User
  {
    User(id, body.name, body.email, body.password, body.subjects, body.studyStyle,
         body.timeSlots, body.academicGoal, None, [])
  }

  /** `registerUser`: refuses a known email with 400, refuses a document the
      schema rejects with 500, and otherwise stores exactly one new user
      holding the given fields and the password as given (201). `newId` is
      the id Mongo assigns to the new document. */
  function Register(users: seq<User>, body: RegisterBody, newId: Id): (r: (Response<User>, seq<User>))
    ensures (exists i :: 0 <= i < |users| && users[i].email == body.email) ==>
              r.0 == Error(400, AlreadyExists) && r.1 == users
    ensures r.0.Error? ==> r.1 == users
    ensures r.0.Error? && r.0.status == 500 <==>
              (forall i :: 0 <= i < |users| ==> users[i].email != body.email) && !ValidUser(NewUser(body, newId))
    ensures r.0.Ok? ==>
              && r.0.status == 201
              && r.1 == users + [r.0.body]
              && r.0.body.id == newId
              && r.0.body.name == body.name && r.0.body.email == body.email
              && r.0.body.password == body.password
              && r.0.body.subjects == body.subjects && r.0.body.timeSlots == body.timeSlots
              && r.0.body.studyStyle == body.studyStyle && r.0.body.academicGoal == body.academicGoal
              && r.0.body.friends == []
              && ValidUser(r.0.body)
  {
    if IndexOfEmail(users, body.email).Some? then
      (Error(400, AlreadyExists), users)
    else
      var u := NewUser(body, newId);
      if |Validate(u)| != 0 then (Error(500, RegisterFailed), users)
      else (Ok(201, u), users + [u])
  }

  /** `loginUser`: the first user with the email, if the stored password
      equals the given one. Both failures give the same 400 reply. */
  function Login(users: seq<User>, email: string, password: string): (r: Response<LoginReply>)
    ensures r.Error? ==> r == Error(400, InvalidCredentials)
    ensures r.Ok? <==>
              IndexOfEmail(users, email).Some? && users[IndexOfEmail(users, email).value].password == password
    ensures r.Ok? ==>
              var u := users[IndexOfEmail(users, email).value];
              && r.status == 200
              && r.body.message == LoginSuccessful
              && r.body.user == LoginUser(u.id, u.name, u.email, u.subjects, u.studyStyle, u.timeSlots, u.academicGoal)
  {
    match IndexOfEmail(users, email)
    case None => Error(400, InvalidCredentials)
    case Some(i) =>
      var u := users[i];
      if u.password != password then Error(400, InvalidCredentials)
      else
        Ok(200, LoginReply(LoginSuccessful,
          LoginUser(u.id, u.name, u.email, u.subjects, u.studyStyle, u.timeSlots, u.academicGoal)))
  }

  /** When emails are unique (as the schema demands), login succeeds exactly
      when some stored user has both the email and the password. */
  lemma LoginSucceedsIffCredentialsMatch(users: seq<User>, email: string, password: string)
    requires UniqueEmails(users)
    ensures Login(users, email, password).Ok? <==>
              exists i :: 0 <= i < |users| && users[i].email == email && users[i].password == password
  {
  }

  /** An unknown email and a wrong password cannot be told apart from the
      reply. */
  lemma LoginFailuresIndistinguishable(users: seq<User>, email: string, pw1: string, pw2: string, other: string)
    requires forall i :: 0 <= i < |users| ==> users[i].email != other
    requires Login(users, email, pw1).Error?
    ensures Login(users, email, pw1) == Login(users, other, pw2)
  {
  }

  /** `getAllUsers`: every stored user, in order, with only the password
      removed. */
  function GetAllUsers(users: seq<User>): (r: seq<PublicUser>)
    ensures |r| == |users|
    ensures forall i :: 0 <= i < |users| ==> WithPassword(r[i], users[i].password) == users[i]
  {
    seq(|users|, i requires 0 <= i < |users| => WithoutPassword(users[i]))
  }

  /** `getUserById`: the user without its password, or 404. */
  function GetUserById(users: seq<User>, id: Id): (r: Response<PublicUser>)
    ensures r.Error? <==> !HasId(users, id)
    ensures r.Error? ==> r == Error(404, UserNotFound)
    ensures r.Ok? ==>
              && r.status == 200 && r.body.id == id
              && exists i :: 0 <= i < |users| && WithPassword(r.body, users[i].password) == users[i]
  {
    match IndexOfId(users, id)
    case None => Error(404, UserNotFound)
    case Some(i) => Ok(200, WithoutPassword(users[i]))
  }

  /** Registration keeps emails unique, since it refuses a known email. */
  lemma RegisterKeepsEmailsUnique(users: seq<User>, body: RegisterBody, newId: Id)
    requires UniqueEmails(users)
    ensures UniqueEmails(Register(users, body, newId).1)
  {
  }

  /** Registration keeps document ids distinct, given a fresh id. */
  lemma RegisterKeepsIdsUnique(users: seq<User>, body: RegisterBody, newId: Id)
    requires !HasId(users, newId)
    requires UniqueIds(users)
    ensures UniqueIds(Register(users, body, newId).1)
  {
  }

  /** Logging in right after a successful registration, with the email and
      password just registered, succeeds and names the new user. */
  lemma RegisterThenLoginSucceeds(users: seq<User>, body: RegisterBody, newId: Id)
    requires Register(users, body, newId).0.Ok?
    ensures var after := Register(users, body, newId).1;
            && Login(after, body.email, body.password).Ok?
            && Login(after, body.email, body.password).body.user.id == newId
  {
    var after := Register(users, body, newId).1;
    assert after[|users|].email == body.email;
    assert IndexOfEmail(after, body.email) == Some(|users|);
  }
}
