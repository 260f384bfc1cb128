/** The account handlers (src/controllers/authController.js) that only read
    the user collection: register's checks before it writes, login, getMe
    and logout. register's write is Marketplace.Database.Register. bcrypt's
    comparison is the parameter `compare` and generateToken the parameter
    `sign`. */
module AuthHandlers {
  import opened Common
  import opened UserModel
  import AuthGate

  const MissingFieldsMessage := "Please provide all required fields"
  const EmailTakenMessage := "User with this email already exists"
  const InvalidRoleMessage := "Invalid role. Must be either \"client\" or \"freelancer\""
  const RegisterErrorMessage := "Server error during registration"
  const MissingCredentialsMessage := "Please provide email and password"
  const InvalidCredentialsMessage := "Invalid email or password"
  const DeactivatedMessage := "Account is deactivated"
  const ServerErrorMessage := "Server error"
  const LoggedOutMessage := "Logged out successfully"

  /** The `user` object (no password) and, for register and login, the token. */
  datatype AuthPayload = AuthPayload(user: UserSummary, token: Option<string>)

  datatype RegisterFields = RegisterFields(
    email: Option<string>,
    password: Option<string>,
    role: Option<string>,
    firstName: Option<string>,
    lastName: Option<string>)

  datatype LoginFields = LoginFields(email: Option<string>, password: Option<string>)

  predicate AllRegisterFieldsPresent(f: RegisterFields) {
    Present(f.email) && Present(f.password) && Present(f.role) && Present(f.firstName) && Present(f.lastName)
  }

  /** The outcome of register's checks: go on to create a user with this role,
      or stop with this reply. */
  datatype RegisterCheck = Proceed(role: Role) | Stop(reply: Reply<AuthPayload>)

  /** register's checks, in the order it makes them: all five fields truthy
      (400), no user with this e-mail yet (400), a known role (400). The e-mail
      check comes first, so a taken e-mail is reported even with a bad role. */
  function CheckRegistration(users: map<Id, User>, f: RegisterFields): (r: RegisterCheck)
    requires UniqueEmails(users)
    ensures !AllRegisterFieldsPresent(f) ==> r == Stop(Fail(400, MissingFieldsMessage))
    ensures AllRegisterFieldsPresent(f) && FindByEmail(users, f.email.value).Some? ==> r == Stop(Fail(400, EmailTakenMessage))
    ensures AllRegisterFieldsPresent(f) && FindByEmail(users, f.email.value).None? && ParseRole(f.role.value).None? ==>
      r == Stop(Fail(400, InvalidRoleMessage))
    ensures r.Proceed? <==>
      AllRegisterFieldsPresent(f) && FindByEmail(users, f.email.value).None? && ParseRole(f.role.value).Some?
    ensures r.Proceed? ==> RoleName(r.role) == f.role.value
  {
    if !AllRegisterFieldsPresent(f) then Stop(Fail(400, MissingFieldsMessage))
    else if FindByEmail(users, f.email.value).Some? then Stop(Fail(400, EmailTakenMessage))
    else match ParseRole(f.role.value)
      case None => Stop(Fail(400, InvalidRoleMessage))
      case Some(role) => Proceed(role)
  }

  /** An e-mail already stored, in any case and with any surrounding white
      space, is refused before the role is looked at. */
  lemma TakenEmailRefusedWhateverTheRole(users: map<Id, User>, f: RegisterFields, k: Id)
    requires UniqueEmails(users)
    requires AllRegisterFieldsPresent(f)
    requires k in users && Normalize(f.email.value) == users[k].email
    ensures CheckRegistration(users, f) == Stop(Fail(400, EmailTakenMessage))
  {
    FindsStoredUser(users, k, f.email.value);
  }

  /** login: both fields truthy (400); a user with this e-mail (401); an active
      account (401, checked before the password); the password matching the
      stored hash (401). Success returns the user's summary and a token. */
  function Login(users: map<Id, User>, f: LoginFields, compare: (string, string) -> bool, sign: Id -> string): (r: Reply<AuthPayload>)
    requires UniqueEmails(users)
    ensures !Present(f.email) || !Present(f.password) ==> r == Fail(400, MissingCredentialsMessage)
    ensures Present(f.email) && Present(f.password) ==>
      match FindByEmail(users, f.email.value)
      case None => r == Fail(401, InvalidCredentialsMessage)
      case Some(k) =>
        && (!users[k].isActive ==> r == Fail(401, DeactivatedMessage))
        && (users[k].isActive && !ComparePassword(users[k], f.password.value, compare) ==> r == Fail(401, InvalidCredentialsMessage))
        && (users[k].isActive && ComparePassword(users[k], f.password.value, compare) ==>
              r == Reply(200, "", Some(AuthPayload(SummaryOf(users[k]), Some(sign(users[k].id))))))
  {
    if !Present(f.email) || !Present(f.password) then Fail(400, MissingCredentialsMessage)
    else match FindByEmail(users, f.email.value)
      case None => Fail(401, InvalidCredentialsMessage)
      case Some(k) =>
        var user := users[k];
        if !user.isActive then Fail(401, DeactivatedMessage)
        else if !ComparePassword(user, f.password.value, compare) then Fail(401, InvalidCredentialsMessage)
        else Reply(200, "", Some(AuthPayload(SummaryOf(user), Some(sign(user.id)))))
  }

  /** login does not tell an unknown e-mail from a wrong password: the two
      replies are identical. */
  lemma LoginHidesWhichCredentialFailed(
    users: map<Id, User>, unknown: string, p1: string, known: string, p2: string,
    compare: (string, string) -> bool, sign: Id -> string)
    requires UniqueEmails(users)
    requires unknown != "" && p1 != "" && known != "" && p2 != ""
    requires forall k :: k in users ==> users[k].email != Normalize(unknown)
    requires FindByEmail(users, known).Some?
    requires var u := users[FindByEmail(users, known).value]; u.isActive && !compare(p2, u.password)
    ensures Login(users, LoginFields(Some(unknown), Some(p1)), compare, sign)
         == Login(users, LoginFields(Some(known), Some(p2)), compare, sign)
    ensures Login(users, LoginFields(Some(unknown), Some(p1)), compare, sign) == Fail(401, InvalidCredentialsMessage)
  {
  }

  /** A deactivated account is refused whatever password is given and however
      the comparison would come out: the password is never compared. */
  lemma DeactivatedRefusedBeforePassword(
    users: map<Id, User>, email: string, p1: string, p2: string,
    c1: (string, string) -> bool, c2: (string, string) -> bool, sign: Id -> string)
    requires UniqueEmails(users)
    requires email != "" && p1 != "" && p2 != ""
    requires FindByEmail(users, email).Some? && !users[FindByEmail(users, email).value].isActive
    ensures Login(users, LoginFields(Some(email), Some(p1)), c1, sign)
         == Login(users, LoginFields(Some(email), Some(p2)), c2, sign)
         == Fail(401, DeactivatedMessage)
  {
  }

  /** A user stored with the hash of a password logs in with that password,
      under any spelling of the e-mail that normalizes to the stored one,
      provided the comparison accepts a password against its own hash. */
  lemma LoginWithStoredPassword(
    users: map<Id, User>, k: Id, email: string, password: string,
    hash: string -> string, compare: (string, string) -> bool, sign: Id -> string)
    requires UniqueEmails(users)
    requires k in users && users[k].isActive && users[k].password == hash(password)
    requires email != "" && password != "" && Normalize(email) == users[k].email
    requires compare(password, hash(password))
    ensures Login(users, LoginFields(Some(email), Some(password)), compare, sign)
         == Reply(200, "", Some(AuthPayload(SummaryOf(users[k]), Some(sign(users[k].id)))))
  {
    FindsStoredUser(users, k, email);
  }

  /** getMe: the attached user's stored record, reloaded without its password
      and summarized; a user gone from the store makes the handler throw (500).
      The reply reflects the store, not the copy `protect` attached. */
  function GetMe(users: map<Id, User>, caller: PublicUser): (r: Reply<AuthPayload>)
    ensures r.status == 200 <==> caller.id in users
    ensures caller.id in users ==>
      r.body.Some? && r.body.value.token.None? && r.body.value.user == SummaryOf(users[caller.id])
    ensures caller.id !in users ==> r == Fail(500, ServerErrorMessage)
  {
    if caller.id !in users then Fail(500, ServerErrorMessage)
    else Reply(200, "", Some(AuthPayload(Summary(GetPublicProfile(users[caller.id])), None)))
  }

  /** A stored, active user presenting a token issued for them passes the
      gate, and getMe then returns that user's own summary. */
  lemma MeRoundTrip(users: map<Id, User>, c: Id, verify: string -> Option<Id>, sign: Id -> string)
    requires c in users && users[c].isActive && users[c].id == c
    requires sign(c) != "" && ' ' !in sign(c) && verify(sign(c)) == Some(c)
    ensures var g := AuthGate.Protect(Some("Bearer " + sign(c)), verify, users);
      g.Next? && GetMe(users, g.user) == Reply(200, "", Some(AuthPayload(SummaryOf(users[c]), None)))
  {
    AuthGate.IssuedTokenOpensGate(sign(c), c, verify, users);
  }

  /** getMe and login return the same `user` object: the token a successful
      login hands out, sent back as a bearer header, opens the gate, and getMe
      answers with the summary login gave (when every issued token verifies to
      the id it was issued for). */
  lemma MeMatchesLogin(users: map<Id, User>, f: LoginFields, compare: (string, string) -> bool,
                       sign: Id -> string, verify: string -> Option<Id>)
    requires UniqueEmails(users) && forall k :: k in users ==> users[k].id == k
    requires forall id: Id :: sign(id) != "" && ' ' !in sign(id) && verify(sign(id)) == Some(id)
    requires Login(users, f, compare, sign).status == 200
    ensures var l := Login(users, f, compare, sign).body.value;
      l.token.Some? &&
      var g := AuthGate.Protect(Some("Bearer " + l.token.value), verify, users);
      g.Next? && GetMe(users, g.user) == Reply(200, "", Some(AuthPayload(l.user, None)))
  {
    var k := FindByEmail(users, f.email.value).value;
    assert users[k].id == k;
    MeRoundTrip(users, k, verify, sign);
  }

  /** logout: always 200 with the same message; it has no store to change. */
  function Logout(): (r: Reply<AuthPayload>)
    ensures r.status == 200 && r.message == LoggedOutMessage && r.body.None?
  {
    Reply(200, LoggedOutMessage, None)
  }
}
