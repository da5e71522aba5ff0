// The authentication controller over the user table: registration, login,
// profile reads and updates, password change and the "forgot password"
// acknowledgement. The table is a map from e-mail address (its unique column)
// to the stored user; bcrypt is an ideal one-way hash and a JWT is the triple
// of claims it signs.

module Accounts {

  import opened Wrappers
  import opened Validation
  import opened Http
  import ErrorHandling

  datatype Role = Admin | PropertyManager | Landlord | Tenant

  const RoleNames: seq<string> := ["ADMIN", "PROPERTY_MANAGER", "LANDLORD", "TENANT"]

  function RoleName(r: Role): (name: string)
    ensures name in RoleNames
  {
    match r
    case Admin => "ADMIN"
    case PropertyManager => "PROPERTY_MANAGER"
    case Landlord => "LANDLORD"
    case Tenant => "TENANT"
  }

  function RoleNamed(name: string): (r: Role)
    requires name in RoleNames
    ensures RoleName(r) == name
  {
    if name == "ADMIN" then Admin
    else if name == "PROPERTY_MANAGER" then PropertyManager
    else if name == "LANDLORD" then Landlord
    else Tenant
  }

  /** bcrypt reads at most this many bytes of a password; the rest is ignored. */
  const BcryptInputLimit := 72

  /** The part of a password that bcrypt reads. */
  function Significant(password: string): (r: string)
    ensures |r| == if |password| <= BcryptInputLimit then |password| else BcryptInputLimit
    ensures r <= password
  {
    if |password| <= BcryptInputLimit then password else password[..BcryptInputLimit]
  }

  /** The stored form of a password. The model treats bcrypt as an ideal one-way
      hash of the significant part: a digest can only be produced by hashing, and a
      password verifies against it exactly when its significant part is the hashed one. */
  datatype Digest = Digest(preimage: string)

  /** `bcrypt.hash(password, 12)`. */
  function Hash(password: string): Digest
  {
    Digest(Significant(password))
  }

  /** `bcrypt.compare(password, digest)`. */
  predicate Verify(password: string, digest: Digest)
  {
    digest.preimage == Significant(password)
  }

  /** `verify(p, hash(p))` holds; another password verifies against `hash(p)` exactly when
      it agrees with `p` on the first 72 characters, so for passwords of at most 72
      characters only `p` itself does. */
  lemma HashVerify(p: string, q: string)
    ensures Verify(p, Hash(p))
    ensures Verify(q, Hash(p)) <==> Significant(q) == Significant(p)
    ensures |p| <= BcryptInputLimit && |q| <= BcryptInputLimit ==> (Verify(q, Hash(p)) <==> q == p)
  {
  }

  /** Two passwords that share their first 72 characters verify against each other's
      digests, whatever follows. */
  lemma LongPasswordsCollide(p: string, q: string)
    requires |p| >= BcryptInputLimit && |q| >= BcryptInputLimit && p[..BcryptInputLimit] == q[..BcryptInputLimit]
    ensures Verify(q, Hash(p)) && Verify(p, Hash(q))
  {
  }

  /** A stand-in for Zod's e-mail pattern: exactly one `@`, with something on both
      sides and no space anywhere. */
  predicate IsEmail(s: string)
  {
    ' ' !in s && exists i :: 0 < i < |s| - 1 && s[i] == '@' && '@' !in s[..i] && '@' !in s[i + 1..]
  }

  datatype User = User(id: string, email: string, password: Digest, firstName: string, lastName: string,
                       phone: Option<string>, role: Role, isActive: bool)

  /** A user as sent to the client: everything but the password. */
  datatype PublicUser = PublicUser(id: string, email: string, firstName: string, lastName: string,
                                   phone: Option<string>, role: Role, isActive: bool)

  function Public(u: User): (p: PublicUser)
    ensures p.id == u.id && p.email == u.email && p.role == u.role
  {
    PublicUser(u.id, u.email, u.firstName, u.lastName, u.phone, u.role, u.isActive)
  }

  /** The claims `{ userId, email, role }` of a signed token. */
  datatype Token = Token(userId: string, email: string, role: Role)

  /** What register and login send back on success. */
  datatype Session = Session(user: PublicUser, token: Token)

  /** `generateToken`: fails with an operational 500 when no signing secret is configured. */
  function GenerateToken(secretConfigured: bool, u: User): (r: Result<Token, ErrorHandling.Failure>)
    ensures r.Ok? <==> secretConfigured
    ensures r.Ok? ==> r.value == Token(u.id, u.email, u.role)
    ensures r.Err? ==> r.error == ErrorHandling.CreateError("JWT secret not configured", Some(500))
  {
    if secretConfigured then Ok(Token(u.id, u.email, u.role))
    else Err(ErrorHandling.CreateError("JWT secret not configured", Some(500)))
  }

  /* ---- Request bodies and their schemas (absent keys are None) ---- */

  datatype RegisterBody = RegisterBody(email: Option<string>, password: Option<string>,
                                       firstName: Option<string>, lastName: Option<string>,
                                       phone: Option<string>, role: Option<string>)

  datatype LoginBody = LoginBody(email: Option<string>, password: Option<string>)

  datatype ProfileBody = ProfileBody(firstName: Option<string>, lastName: Option<string>, phone: Option<string>)

  datatype PasswordBody = PasswordBody(currentPassword: Option<string>, newPassword: Option<string>)

  function EmailRule(v: Option<string>): (r: seq<Issue>)
    ensures r == [] <==> v.Some? && IsEmail(v.value)
  {
    match v
    case None => [At("email", RequiredMessage)]
    case Some(s) => if IsEmail(s) then [] else [At("email", "Invalid email format")]
  }

  /** `registerSchema`: every violated rule, in field order. */
  function RegisterIssues(b: RegisterBody): (r: seq<Issue>)
    ensures r == [] <==>
              && b.email.Some? && IsEmail(b.email.value)
              && b.password.Some? && |b.password.value| >= 8
              && b.firstName.Some? && |b.firstName.value| >= 1
              && b.lastName.Some? && |b.lastName.value| >= 1
              && (b.role.Some? ==> b.role.value in RoleNames)
  {
    EmailRule(b.email)
    + TextRule("password", b.password, true, 8, "Password must be at least 8 characters")
    + TextRule("firstName", b.firstName, true, 1, "First name is required")
    + TextRule("lastName", b.lastName, true, 1, "Last name is required")
    + EnumRule("role", b.role, false, RoleNames)
  }

  /** `loginSchema`. */
  function LoginIssues(b: LoginBody): (r: seq<Issue>)
    ensures r == [] <==> b.email.Some? && IsEmail(b.email.value) && b.password.Some? && b.password.value != ""
  {
    EmailRule(b.email) + TextRule("password", b.password, true, 1, "Password is required")
  }

  /** `updateProfileSchema`: names, when given, must not be empty. */
  function ProfileIssues(b: ProfileBody): (r: seq<Issue>)
    ensures r == [] <==> (b.firstName.Some? ==> b.firstName.value != "") && (b.lastName.Some? ==> b.lastName.value != "")
  {
    TextRule("firstName", b.firstName, false, 1, "First name is required")
    + TextRule("lastName", b.lastName, false, 1, "Last name is required")
  }

  /** `changePasswordSchema`: the new password has at least 8 characters. */
  function PasswordIssues(b: PasswordBody): (r: seq<Issue>)
    ensures r == [] <==> b.currentPassword.Some? && b.currentPassword.value != ""
                         && b.newPassword.Some? && |b.newPassword.value| >= 8
  {
    TextRule("currentPassword", b.currentPassword, true, 1, "Current password is required")
    + TextRule("newPassword", b.newPassword, true, 8, "New password must be at least 8 characters")
  }

  /** The user row created by a valid registration: hashed password, TENANT by default.
      `register` does not set `isActive`; the column's default, which lives in the database
      schema, is the parameter `activeByDefault`. */
  function NewUser(b: RegisterBody, id: string, activeByDefault: bool): (u: User)
    requires RegisterIssues(b) == []
    ensures u.email == b.email.value && u.id == id && u.isActive == activeByDefault
    ensures Verify(b.password.value, u.password)
    ensures u.role == if b.role.Some? then RoleNamed(b.role.value) else Tenant
  {
    User(id, b.email.value, Hash(b.password.value), b.firstName.value, b.lastName.value, b.phone,
         if b.role.Some? then RoleNamed(b.role.value) else Tenant, activeByDefault)
  }

  /** The fields an accepted profile update may touch, and only those. */
  function ApplyProfile(u: User, b: ProfileBody): (v: User)
    ensures v.id == u.id && v.email == u.email && v.password == u.password
    ensures v.role == u.role && v.isActive == u.isActive
    ensures v.firstName == (if b.firstName.Some? then b.firstName.value else u.firstName)
    ensures v.lastName == (if b.lastName.Some? then b.lastName.value else u.lastName)
    ensures v.phone == (if b.phone.Some? then b.phone else u.phone)
  {
    u.(firstName := if b.firstName.Some? then b.firstName.value else u.firstName,
       lastName := if b.lastName.Some? then b.lastName.value else u.lastName,
       phone := if b.phone.Some? then b.phone else u.phone)
  }

  const InvalidCredentials := "Invalid credentials"
  const ResetAcknowledgement := "If an account with that email exists, a password reset link has been sent."

  /** The user table and the one piece of configuration the controller reads. */
  class AccountStore {
    var users: map<string, User>
    const secretConfigured: bool

    /** Rows are keyed by their own e-mail, and ids are unique. */
    ghost predicate Valid()
      reads this
    {
      && (forall e :: e in users ==> users[e].email == e)
      && (forall e1, e2 :: e1 in users && e2 in users && users[e1].id == users[e2].id ==> e1 == e2)
    }

    constructor (secretConfigured: bool)
      ensures Valid() && users == map[] && this.secretConfigured == secretConfigured
    {
      users := map[];
      this.secretConfigured := secretConfigured;
    }

    /** `prisma.user.findUnique({ where: { id } })`: the e-mail key of the row with that id. */
    method FindById(id: string) returns (key: Option<string>)
      requires Valid()
      ensures key.Some? ==> key.value in users && users[key.value].id == id
      ensures key.None? ==> forall e :: e in users ==> users[e].id != id
    {
      if e :| e in users && users[e].id == id {
        key := Some(e);
      } else {
        key := None;
      }
    }

    /** `register`: validate, refuse a taken e-mail, store exactly one new user, sign a token. */
    method Register(b: RegisterBody, freshId: string, activeByDefault: bool) returns (r: Reply<Session>)
      requires Valid()
      requires forall e :: e in users ==> users[e].id != freshId
      modifies this
      ensures Valid()
      ensures RegisterIssues(b) != [] ==>
                r == Refused(400, ValidationFailed, RegisterIssues(b)) && users == old(users)
      ensures RegisterIssues(b) == [] && b.email.value in old(users) ==>
                r == Refused(409, "User already exists with this email", []) && users == old(users)
      ensures RegisterIssues(b) == [] && b.email.value !in old(users) ==>
                && users == old(users)[b.email.value := NewUser(b, freshId, activeByDefault)]
                && r == match GenerateToken(secretConfigured, NewUser(b, freshId, activeByDefault))
                        case Ok(t) => Success(201, "User registered successfully", Session(Public(NewUser(b, freshId, activeByDefault)), t))
                        case Err(f) => Raised(f)
    {
      var issues := RegisterIssues(b);
      if issues != [] {
        return Refused(400, ValidationFailed, issues);
      }
      var email := b.email.value;
      if email in users {
        return Refused(409, "User already exists with this email", []);
      }
      var u := NewUser(b, freshId, activeByDefault);
      users := users[email := u];
      var token := GenerateToken(secretConfigured, u);
      match token
      case Ok(t) => r := Success(201, "User registered successfully", Session(Public(u), t));
      case Err(f) => r := Raised(f);
    }

    /** `login`: one and the same 401 for an unknown e-mail, an inactive account and a
        wrong password. */
    method Login(b: LoginBody) returns (r: Reply<Session>)
      requires Valid()
      ensures LoginIssues(b) != [] ==> r == Refused(400, ValidationFailed, LoginIssues(b))
      ensures LoginIssues(b) == [] ==>
                var e := b.email.value;
                if e !in users || !users[e].isActive || !Verify(b.password.value, users[e].password)
                then r == Refused(401, InvalidCredentials, [])
                else r == match GenerateToken(secretConfigured, users[e])
                          case Ok(t) => Success(200, "Login successful", Session(Public(users[e]), t))
                          case Err(f) => Raised(f)
      ensures r.Success? ==> r.payload.token.email == b.email.value && b.email.value in users
                             && Verify(b.password.value, users[b.email.value].password)
    {
      var issues := LoginIssues(b);
      if issues != [] {
        return Refused(400, ValidationFailed, issues);
      }
      var e := b.email.value;
      if e !in users || !users[e].isActive {
        return Refused(401, InvalidCredentials, []);
      }
      var u := users[e];
      if !Verify(b.password.value, u.password) {
        return Refused(401, InvalidCredentials, []);
      }
      var token := GenerateToken(secretConfigured, u);
      match token
      case Ok(t) => r := Success(200, "Login successful", Session(Public(u), t));
      case Err(f) => r := Raised(f);
    }

    /** `getProfile`: the caller's own row, without its password. */
    method GetProfile(caller: Option<string>) returns (r: Reply<PublicUser>)
      requires Valid()
      ensures (caller.None? || caller.value == "") ==> r == Refused(401, NotAuthenticated, [])
      ensures caller.Some? && caller.value != "" ==>
                if exists e :: e in users && users[e].id == caller.value
                then r.Success? && r.status == 200 && r.payload.id == caller.value
                     && r.payload.email in users && Public(users[r.payload.email]) == r.payload
                else r == Refused(404, "User not found", [])
    {
      if caller.None? || caller.value == "" {
        return Refused(401, NotAuthenticated, []);
      }
      var key := FindById(caller.value);
      if key.None? {
        return Refused(404, "User not found", []);
      }
      r := Success(200, "", Public(users[key.value]));
    }

    /** `updateProfile`: only first name, last name and phone of the caller's row change;
        a caller with no row makes Prisma throw P2025. */
    method UpdateProfile(caller: Option<string>, b: ProfileBody) returns (r: Reply<PublicUser>)
      requires Valid()
      modifies this
      ensures Valid()
      ensures (caller.None? || caller.value == "") ==> r == Refused(401, NotAuthenticated, []) && users == old(users)
      ensures caller.Some? && caller.value != "" && ProfileIssues(b) != [] ==>
                r == Refused(400, ValidationFailed, ProfileIssues(b)) && users == old(users)
      ensures caller.Some? && caller.value != "" && ProfileIssues(b) == [] ==>
                if exists e :: e in old(users) && old(users)[e].id == caller.value
                then forall e :: e in old(users) && old(users)[e].id == caller.value ==>
                       && users == old(users)[e := ApplyProfile(old(users)[e], b)]
                       && r == Success(200, "Profile updated successfully", Public(users[e]))
                else r == Raised(RecordToUpdateNotFound) && users == old(users)
    {
      if caller.None? || caller.value == "" {
        return Refused(401, NotAuthenticated, []);
      }
      var issues := ProfileIssues(b);
      if issues != [] {
        return Refused(400, ValidationFailed, issues);
      }
      var key := FindById(caller.value);
      if key.None? {
        return Raised(RecordToUpdateNotFound);
      }
      var e := key.value;
      users := users[e := ApplyProfile(users[e], b)];
      r := Success(200, "Profile updated successfully", Public(users[e]));
    }

    /** `changePassword`: a wrong current password is refused with 400 and leaves the hash;
        otherwise exactly that user's password becomes the hash of the new one. */
    method ChangePassword(caller: Option<string>, b: PasswordBody) returns (r: Reply<()>)
      requires Valid()
      modifies this
      ensures Valid()
      ensures (caller.None? || caller.value == "") ==> r == Refused(401, NotAuthenticated, []) && users == old(users)
      ensures caller.Some? && caller.value != "" && PasswordIssues(b) != [] ==>
                r == Refused(400, ValidationFailed, PasswordIssues(b)) && users == old(users)
      ensures caller.Some? && caller.value != "" && PasswordIssues(b) == [] ==>
                if exists e :: e in old(users) && old(users)[e].id == caller.value
                then forall e :: e in old(users) && old(users)[e].id == caller.value ==>
                       if Verify(b.currentPassword.value, old(users)[e].password)
                       then users == old(users)[e := old(users)[e].(password := Hash(b.newPassword.value))]
                            && r == Success(200, "Password changed successfully", ())
                       else users == old(users) && r == Refused(400, "Current password is incorrect", [])
                else r == Refused(404, "User not found", []) && users == old(users)
    {
      if caller.None? || caller.value == "" {
        return Refused(401, NotAuthenticated, []);
      }
      var issues := PasswordIssues(b);
      if issues != [] {
        return Refused(400, ValidationFailed, issues);
      }
      var key := FindById(caller.value);
      if key.None? {
        return Refused(404, "User not found", []);
      }
      var e := key.value;
      if !Verify(b.currentPassword.value, users[e].password) {
        return Refused(400, "Current password is incorrect", []);
      }
      users := users[e := users[e].(password := Hash(b.newPassword.value))];
      r := Success(200, "Password changed successfully", ());
    }

    /** `forgotPassword`: the answer for a present e-mail is the same whether or not an
        account has it. */
    method ForgotPassword(email: Option<string>) returns (r: Reply<()>)
      ensures (email.None? || email.value == "") ==> r == Refused(400, "Email is required", [])
      ensures email.Some? && email.value != "" ==> r == Success(200, ResetAcknowledgement, ())
    {
      if email.None? || email.value == "" {
        return Refused(400, "Email is required", []);
      }
      r := Success(200, ResetAcknowledgement, ());
    }
  }

  /** A newly registered account can log in straight away with the password it
      registered with, and gets a token for its own id, e-mail and role, exactly when
      accounts are active by default; otherwise the login is the generic 401. */
  method RegisterThenLogin(store: AccountStore, b: RegisterBody, freshId: string, activeByDefault: bool)
    returns (registered: Reply<Session>, loggedIn: Reply<Session>)
    requires store.Valid() && store.secretConfigured
    requires forall e :: e in store.users ==> store.users[e].id != freshId
    requires RegisterIssues(b) == [] && b.email.value !in store.users
    modifies store
    ensures store.Valid()
    ensures registered.Success? && registered.status == 201
    ensures activeByDefault ==> loggedIn.Success? && loggedIn.status == 200
    ensures activeByDefault ==> loggedIn.payload.token == Token(freshId, b.email.value, NewUser(b, freshId, true).role)
    ensures !activeByDefault ==> loggedIn == Refused(401, InvalidCredentials, [])
  {
    registered := store.Register(b, freshId, activeByDefault);
    loggedIn := store.Login(LoginBody(b.email, b.password));
  }

  /** After a password change the new password logs in, and the old one no longer does
      unless it agrees with the new one on the characters bcrypt reads. */
  method ChangePasswordThenLogin(store: AccountStore, email: string, current: string, next: string)
    returns (changed: Reply<()>, withNext: Reply<Session>, withCurrent: Reply<Session>)
    requires store.Valid() && store.secretConfigured
    requires email in store.users && IsEmail(email) && store.users[email].id != "" && store.users[email].isActive
    requires Verify(current, store.users[email].password) && current != "" && |next| >= 8
    modifies store
    ensures store.Valid()
    ensures changed == Success(200, "Password changed successfully", ())
    ensures withNext.Success? && withNext.payload.token.email == email
    ensures Significant(current) != Significant(next) ==> withCurrent == Refused(401, InvalidCredentials, [])
    ensures Significant(current) == Significant(next) ==> withCurrent.Success? && withCurrent.payload.token.email == email
  {
    var id := store.users[email].id;
    changed := store.ChangePassword(Some(id), PasswordBody(Some(current), Some(next)));
    assert store.users[email].password == Hash(next);
    withNext := store.Login(LoginBody(Some(email), Some(next)));
    withCurrent := store.Login(LoginBody(Some(email), Some(current)));
  }

  /** What Prisma throws when `update` finds no row. */
  const RecordToUpdateNotFound := ErrorHandling.Failure(ErrorHandling.PrismaKnown("P2025", None),
                                                        "PrismaClientKnownRequestError",
                                                        "Record to update not found.")
}
