/** The user document (src/models/User.js): the record, its field rules and
    defaults, the pre-save password hashing and the public projections. */
module UserModel {
  import opened Common

  datatype Role = Client | Freelancer

  function RoleName(r: Role): string {
    match r
    case Client => "client"
    case Freelancer => "freelancer"
  }

  /** The role enum: exactly "client" and "freelancer" are accepted. */
  function ParseRole(s: string): (r: Option<Role>)
    ensures r.Some? <==> s == "client" || s == "freelancer"
    ensures r.Some? ==> RoleName(r.value) == s
  {
    if s == "client" then Some(Client)
    else if s == "freelancer" then Some(Freelancer)
    else None
  }

  /** Every role reads back from its name. */
  lemma RoleRoundTrip(r: Role)
    ensures ParseRole(RoleName(r)) == Some(r)
  {
  }

  datatype Profile = Profile(
    firstName: string,
    lastName: string,
    avatar: Option<string>,
    bio: Option<string>,
    location: Option<string>,
    phone: Option<string>)

  datatype PortfolioItem = PortfolioItem(
    title: Option<string>,
    description: Option<string>,
    url: Option<string>,
    image: Option<string>)

  datatype FreelancerProfile = FreelancerProfile(
    skills: seq<string>,
    hourlyRate: Option<int>,
    portfolio: seq<PortfolioItem>,
    experience: Option<string>,
    rating: int,
    completedJobs: int)

  datatype ClientProfile = ClientProfile(
    companyName: Option<string>,
    industry: Option<string>,
    postedJobs: int)

  /** A stored user. `password` holds whatever the pre-save hook left there
      (the hash once the document has been saved). */
  datatype User = User(
    id: Id,
    email: string,
    password: string,
    role: Role,
    profile: Profile,
    freelancerProfile: FreelancerProfile,
    clientProfile: ClientProfile,
    isActive: bool,
    createdAt: nat)

  /** A user as `select("-password")` and getPublicProfile give it: every
      field but the password. */
  datatype PublicUser = PublicUser(
    id: Id,
    email: string,
    role: Role,
    profile: Profile,
    freelancerProfile: FreelancerProfile,
    clientProfile: ClientProfile,
    isActive: bool,
    createdAt: nat)

  /** The `user` object that register, login and getMe return. */
  datatype UserSummary = UserSummary(id: Id, email: string, role: Role, profile: Profile, createdAt: nat)

  const MinPasswordLength: nat := 6

  // ---------------------------------------------------------------------------
  // Field rules
  // ---------------------------------------------------------------------------

  /** The e-mail pattern `^\S+@\S+\.\S+$`: no white space anywhere, an '@'
      after at least one character, and a '.' with at least one character
      between it and the '@' and at least one after it. (`\S` also matches
      '@' and '.', so any '@' and any later '.' may play these parts.) */
  function IsEmailShape(s: string): (r: bool)
    ensures r ==> |s| >= 5 && '@' in s && '.' in s
  {
    NoSpace(s) && exists i, j | 0 <= i < j < |s| :: AtAndDot(s, i, j)
  }

  /** An '@' at `i` with something before it, and a '.' at `j` with something
      between the two and at least two characters after it. */
  predicate AtAndDot(s: string, i: int, j: int) {
    1 <= i && i + 2 <= j && j + 2 <= |s| && s[i] == '@' && s[j] == '.'
  }

  /** `s` is `a@b.c` with three non-empty pieces free of white space: the
      three `\S+` groups of the pattern. */
  predicate EmailParts(s: string, a: string, b: string, c: string) {
    s == a + "@" + b + "." + c
    && a != "" && b != "" && c != ""
    && NoSpace(a) && NoSpace(b) && NoSpace(c)
  }

  /** IsEmailShape is the pattern: a string has the shape exactly when it
      splits into three non-empty, space-free pieces around an '@' and a
      later '.'. */
  lemma EmailShapeIsPattern(s: string)
    ensures IsEmailShape(s) <==> exists a, b, c :: EmailParts(s, a, b, c)
  {
    if IsEmailShape(s) {
      var i, j :| 0 <= i < j < |s| && AtAndDot(s, i, j);
      var a, b, c := s[..i], s[i + 1..j], s[j + 1..];
      assert s == a + "@" + b + "." + c;
      assert EmailParts(s, a, b, c);
    }
    if exists a, b, c :: EmailParts(s, a, b, c) {
      var a, b, c :| EmailParts(s, a, b, c);
      PartsHaveShape(a, b, c);
    }
  }

  /** Any three non-empty, space-free pieces make an address of the shape. */
  lemma PartsHaveShape(a: string, b: string, c: string)
    requires a != "" && b != "" && c != ""
    requires NoSpace(a) && NoSpace(b) && NoSpace(c)
    ensures IsEmailShape(a + "@" + b + "." + c)
  {
    var s := a + "@" + b + "." + c;
    var i, j := |a|, |a| + 1 + |b|;
    assert AtAndDot(s, i, j);
    forall k | 0 <= k < |s|
      ensures !IsSpace(s[k])
    {
      if k < i {
        assert s[k] == a[k];
      } else if i < k < j {
        assert s[k] == b[k - i - 1];
      } else if j < k {
        assert s[k] == c[k - j - 1];
      }
    }
  }

  /** Three fixed inputs against the e-mail pattern. */
  lemma EmailShapeExamples()
    ensures IsEmailShape("a@b.com")
    ensures !IsEmailShape("a@b")
    ensures !IsEmailShape("a b@c.de")
    ensures !IsEmailShape("@b.com")
  {
    assert AtAndDot("a@b.com", 1, 3);
    var t := "a b@c.de";
    assert IsSpace(t[1]);
  }

  /** The validators a user document must pass before it is saved: the
      `required`, `match` and `minlength` rules (the role enum holds by type).
      They run on the plain-text password, before the pre-save hook hashes it. */
  function PassesValidation(u: User): (r: bool)
    ensures r ==> |u.email| >= 5 && |u.password| >= MinPasswordLength
    ensures r ==> u.profile.firstName != "" && u.profile.lastName != ""
  {
    IsEmailShape(u.email)
    && |u.password| >= MinPasswordLength
    && u.profile.firstName != ""
    && u.profile.lastName != ""
  }

  /** The settled form of a stored user: e-mail lower-cased and trimmed, names
      trimmed and non-empty, e-mail of the required shape, and the document
      keyed by its id, created before `clock`. */
  predicate WellFormed(u: User, key: Id, clock: nat) {
    u.id == key && u.createdAt == key && key < clock
    && IsNormalized(u.email) && IsEmailShape(u.email)
    && u.profile.firstName != "" && IsTrimmed(u.profile.firstName)
    && u.profile.lastName != "" && IsTrimmed(u.profile.lastName)
  }

  /** A new user document as `User.create` builds it from register's fields:
      the setters lower-case and trim the e-mail and trim the names, and the
      schema defaults fill in the rest. */
  function NewUser(id: Id, email: string, password: string, role: Role, firstName: string, lastName: string): (u: User)
    ensures u.id == id && u.createdAt == id && u.role == role && u.password == password
    ensures u.email == Normalize(email)
    ensures u.profile.firstName == Trim(firstName) && u.profile.lastName == Trim(lastName)
    ensures u.isActive
    ensures u.clientProfile.postedJobs == 0
    ensures u.freelancerProfile.rating == 0 && u.freelancerProfile.completedJobs == 0
  {
    User(
      id, Normalize(email), password, role,
      Profile(Trim(firstName), Trim(lastName), None, None, None, None),
      FreelancerProfile([], None, [], None, 0, 0),
      ClientProfile(None, None, 0),
      true, id)
  }

  /** A new user passes validation exactly when the normalized e-mail has the
      required shape, the password has at least six characters and both names
      keep some text after trimming; a passing one is well formed once stored. */
  lemma NewUserValidation(id: Id, email: string, password: string, role: Role, firstName: string, lastName: string, clock: nat)
    requires id < clock
    ensures var u := NewUser(id, email, password, role, firstName, lastName);
      && (PassesValidation(u) <==>
            IsEmailShape(Normalize(email)) && |password| >= MinPasswordLength
            && Trim(firstName) != "" && Trim(lastName) != "")
      && (PassesValidation(u) ==> WellFormed(u, id, clock))
  {
  }

  // ---------------------------------------------------------------------------
  // Pre-save hook
  // ---------------------------------------------------------------------------

  /** A user document in memory, with Mongoose's record of whether the password
      path has been modified since it was loaded (always, for a new document). */
  class UserDocument {
    var data: User
    var passwordModified: bool

    /** `new User(fields)`: a new document, every set path counts as modified. */
    constructor (u: User)
      ensures data == u && passwordModified
    {
      data := u;
      passwordModified := true;
    }

    /** A document loaded from the store: nothing modified yet. */
    constructor Loaded(u: User)
      ensures data == u && !passwordModified
    {
      data := u;
      passwordModified := false;
    }

    /** Assigning the password path marks it modified. */
    method SetPassword(password: string)
      modifies this
      ensures data == old(data).(password := password) && passwordModified
    {
      data := data.(password := password);
      passwordModified := true;
    }

    /** The pre("save") hook: the password is replaced by its hash only when it
        has been modified; otherwise the document is left as it is. */
    method PreSave(hash: string -> string)
      modifies this
      ensures passwordModified == old(passwordModified)
      ensures old(passwordModified) ==> data == old(data).(password := hash(old(data).password))
      ensures !old(passwordModified) ==> data == old(data)
    {
      if !passwordModified {
        return;
      }
      data := data.(password := hash(data.password));
    }
  }

  /** comparePassword: the stored hash checked against an entered password by
      the (foreign) bcrypt comparison. */
  function ComparePassword(u: User, entered: string, compare: (string, string) -> bool): bool
  {
    compare(entered, u.password)
  }

  /** The comparison is against the stored hash, with the entered password
      first: a record holding the hash of a password matches that password
      when bcrypt accepts a password against its own hash, and the outcome
      depends on the stored password alone, not on the rest of the record. */
  lemma ComparesStoredHash(u: User, password: string, hash: string -> string, compare: (string, string) -> bool)
    requires compare(password, hash(password))
    ensures ComparePassword(u.(password := hash(password)), password, compare)
    ensures forall v: User :: v.password == u.password ==>
      ComparePassword(v, password, compare) == ComparePassword(u, password, compare)
  {
  }

  // ---------------------------------------------------------------------------
  // Projections
  // ---------------------------------------------------------------------------

  /** getPublicProfile / select("-password"): the record without its password. */
  function GetPublicProfile(u: User): (p: PublicUser)
    ensures p.id == u.id && p.email == u.email && p.role == u.role
  {
    PublicUser(u.id, u.email, u.role, u.profile, u.freelancerProfile, u.clientProfile, u.isActive, u.createdAt)
  }

  /** The record rebuilt from a public profile and a password. */
  function WithPassword(p: PublicUser, password: string): (u: User)
    ensures u.password == password && u.id == p.id
  {
    User(p.id, p.email, password, p.role, p.profile, p.freelancerProfile, p.clientProfile, p.isActive, p.createdAt)
  }

  /** getPublicProfile removes the password and nothing else: the record comes
      back whole from the profile and the password, and the profile does not
      depend on the password at all. */
  lemma PublicProfileIsRecordMinusPassword(u: User, other: string)
    ensures WithPassword(GetPublicProfile(u), u.password) == u
    ensures GetPublicProfile(u.(password := other)) == GetPublicProfile(u)
    ensures GetPublicProfile(WithPassword(GetPublicProfile(u), other)) == GetPublicProfile(u)
  {
  }

  /** The `{id, email, role, profile, createdAt}` object of the auth replies. */
  function Summary(p: PublicUser): (s: UserSummary)
    ensures s.id == p.id && s.email == p.email && s.role == p.role
    ensures s.profile == p.profile && s.createdAt == p.createdAt
  {
    UserSummary(p.id, p.email, p.role, p.profile, p.createdAt)
  }

  function SummaryOf(u: User): UserSummary {
    Summary(GetPublicProfile(u))
  }

  /** The auth replies leak nothing of the password: two records that differ
      only in the password give the same summary. */
  lemma SummaryIgnoresPassword(u: User, v: User)
    requires u.(password := v.password) == v
    ensures SummaryOf(u) == SummaryOf(v)
  {
  }

  // ---------------------------------------------------------------------------
  // The collection
  // ---------------------------------------------------------------------------

  /** The unique index on `email`. */
  predicate UniqueEmails(users: map<Id, User>) {
    forall a, b :: a in users && b in users && users[a].email == users[b].email ==> a == b
  }

  predicate UsersWellFormed(users: map<Id, User>, clock: nat) {
    forall k :: k in users ==> WellFormed(users[k], k, clock)
  }

  /** findOne({ email }): the user whose stored e-mail equals the normalized
      key, if there is one (at most one, by the unique index). */
  function FindByEmail(users: map<Id, User>, email: string): (r: Option<Id>)
    requires UniqueEmails(users)
    ensures r.Some? <==> exists k :: k in users && users[k].email == Normalize(email)
    ensures r.Some? ==> r.value in users && users[r.value].email == Normalize(email)
  {
    var key := Normalize(email);
    if exists k :: k in users && users[k].email == key then
      var k :| k in users && users[k].email == key;
      Some(k)
    else None
  }

  /** A stored user is found by its own e-mail, whatever its case and
      surrounding white space. */
  lemma FindsStoredUser(users: map<Id, User>, k: Id, email: string)
    requires UniqueEmails(users)
    requires k in users && Normalize(email) == users[k].email
    ensures FindByEmail(users, email) == Some(k)
  {
    var r := FindByEmail(users, email);
    assert r.Some?;
    assert users[r.value].email == users[k].email;
  }
}
