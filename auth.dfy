/** backend/routes/auth.js: registration (field checks, duplicate e-mail,
    the user and the profile that goes with the role), login, and the
    profile update. express-validator's `isEmail`, bcrypt's hash and compare
    are parameters: the model fixes no e-mail grammar and no hash function.
    A signed token is represented by the payload it signs. */
module Auth {
  import opened Base
  import opened Models
  import opened Store

  /** What the token signs: the user's id and role, nothing else. */
  datatype Payload = Payload(id: Id, role: Role)

  /** The JSON body of a successful registration or login. */
  datatype Session = Session(token: Payload, role: Role, userId: Id, name: string)

  function SessionFor(u: User): Session
  {
    Session(Payload(u.id, u.role), u.role, u.id, u.name)
  }

  /** A request field as the validators see it: missing reads as empty. */
  function Field(s: Option<string>): string
  {
    if s.None? then "" else s.value
  }

  // ------------------------------------------------------------- validation

  const NameRequired := "Name is required"
  const EmailInvalid := "Please include a valid email"
  const PasswordTooShort := "Please enter a password with 6 or more characters"
  const RoleRequired := "Role is required"
  const PhoneRequired := "Phone number is required"
  const PasswordRequired := "Password is required"

  /** The body of POST /auth/register. */
  datatype RegisterRequest = RegisterRequest(
    name: Option<string>, email: Option<string>, password: Option<string>,
    role: Option<string>, phone: Option<string>)

  /** The register checks in declaration order; each failing check adds its
      message. */
  function RegisterErrors(req: RegisterRequest, isEmail: string -> bool): (errors: seq<string>)
    ensures errors == [] <==>
      Present(req.name) && isEmail(Field(req.email)) && |Field(req.password)| >= 6 &&
      Present(req.role) && Present(req.phone)
    ensures NameRequired in errors <==> !Present(req.name)
    ensures EmailInvalid in errors <==> !isEmail(Field(req.email))
    ensures PasswordTooShort in errors <==> |Field(req.password)| < 6
    ensures RoleRequired in errors <==> !Present(req.role)
    ensures PhoneRequired in errors <==> !Present(req.phone)
    ensures |errors| <= 5
  {
    (if Present(req.name) then [] else [NameRequired]) +
    (if isEmail(Field(req.email)) then [] else [EmailInvalid]) +
    (if |Field(req.password)| >= 6 then [] else [PasswordTooShort]) +
    (if Present(req.role) then [] else [RoleRequired]) +
    (if Present(req.phone) then [] else [PhoneRequired])
  }

  // ------------------------------------------------------------- registration

  /** A profile for the user already exists in the store that goes with
      their role (the unique index on `userId` would reject another). */
  function ProfileClash(u: User, patients: seq<PatientProfile>, doctors: seq<DoctorProfile>,
                        admins: seq<AdminProfile>): bool
  {
    match u.role
    case Patient => FindBy(patients, PatientUser, u.id).Some?
    case Doctor => FindBy(doctors, DoctorUser, u.id).Some?
    case Admin => FindBy(admins, AdminUser, u.id).Some?
  }

  /** Exactly one profile was added, in the store that goes with the role: a
      patient with gender Other, a doctor or an admin with the defaults. */
  ghost predicate ProfileAdded(u: User, id: Id, now: Time,
                               p0: seq<PatientProfile>, d0: seq<DoctorProfile>, a0: seq<AdminProfile>,
                               p1: seq<PatientProfile>, d1: seq<DoctorProfile>, a1: seq<AdminProfile>)
  {
    match u.role
    case Patient => p1 == p0 + [NewPatientProfile(id, u.id, Some(Other), now)] && d1 == d0 && a1 == a0
    case Doctor => d1 == d0 + [NewDoctorProfile(id, u.id, now)] && p1 == p0 && a1 == a0
    case Admin => a1 == a0 + [NewAdminProfile(id, u.id, now)] && p1 == p0 && d1 == d0
  }

  /** The first write of registration: the user, under a fresh id. */
  method SaveUser(db: Db, u: User)
    requires db.Valid() && u.id == db.nextId && ValidUser(u)
    requires FindBy(db.users, UserEmail, u.email).None?
    modifies db`users, db`nextId
    ensures db.Valid()
    ensures db.users == old(db.users) + [u] && db.nextId == old(db.nextId) + 1
  {
    UsersOkAppend(db.users, db.nextId, u);
    var _ := NewId(db);
    db.users := db.users + [u];
  }

  /** The second write of registration: the profile that goes with the role. */
  method CreateProfile(db: Db, u: User, now: Time, fault: Option<nat>) returns (ok: bool)
    requires db.Valid()
    modifies db`patients, db`doctors, db`admins, db`nextId
    ensures db.Valid()
    ensures ok == !(ProfileClash(u, old(db.patients), old(db.doctors), old(db.admins)) || FailsAt(fault, 1))
    ensures ok ==> db.nextId == old(db.nextId) + 1
    ensures ok ==> ProfileAdded(u, old(db.nextId), now, old(db.patients), old(db.doctors),
                                old(db.admins), db.patients, db.doctors, db.admins)
    ensures !ok ==> unchanged(db`patients, db`doctors, db`admins, db`nextId)
  {
    if ProfileClash(u, db.patients, db.doctors, db.admins) || FailsAt(fault, 1) {
      return false;
    }
    var id := NewId(db);
    ok := true;
    match u.role
    case Patient =>
      var p := NewPatientProfile(id, u.id, Some(Other), now);
      AppendUnique(db.patients, PatientUser, p);
      db.patients := db.patients + [p];
    case Doctor =>
      var d := NewDoctorProfile(id, u.id, now);
      AppendUnique(db.doctors, DoctorUser, d);
      db.doctors := db.doctors + [d];
    case Admin =>
      var a := NewAdminProfile(id, u.id, now);
      AppendUnique(db.admins, AdminUser, a);
      db.admins := db.admins + [a];
  }

  /** The prefix of the 500 body registration sends; the rest is the
      underlying error's text, which the model does not fix. */
  const RegisterFailure := "Server error: "

  /** A 500 reply whose body starts with `RegisterFailure`. */
  predicate RegisterFailed<T>(r: Reply<T>)
  {
    r.Fail? && r.code == 500 && |r.msg| >= |RegisterFailure| &&
    r.msg[..|RegisterFailure|] == RegisterFailure
  }

  /** POST /auth/register: a request failing a check gets the list of
      messages; a taken e-mail gets 400; otherwise the user is stored with the
      hash of the password (never the password itself), then the profile of
      their role, and the reply carries a token for the user's id and role.
      A role outside the enumeration passes the checks and fails the save. */
  method Register(db: Db, req: RegisterRequest, isEmail: string -> bool, hash: string -> string,
                  now: Time, fault: Option<nat>) returns (r: Reply<Session>)
    requires !isEmail("")
    requires db.Valid()
    modifies db`users, db`patients, db`doctors, db`admins, db`nextId
    ensures db.Valid()
    ensures var errors := RegisterErrors(req, isEmail);
      var made := MakeUser(old(db.nextId), req.name, req.email, Some(hash(Field(req.password))),
                           req.role, req.phone, now);
      if errors != [] then
        r == Invalid(errors) && unchanged(db)
      else if FindBy(old(db.users), UserEmail, req.email.value).Some? then
        r == Fail(400, "User already exists") && unchanged(db)
      else if made.None? || FailsAt(fault, 0) then
        RegisterFailed(r) && unchanged(db)
      else
        && made.value.password == hash(req.password.value)
        && made.value.role == ParseRole(req.role.value).value
        && db.users == old(db.users) + [made.value]
        && if ProfileClash(made.value, old(db.patients), old(db.doctors), old(db.admins)) ||
              FailsAt(fault, 1) then
             RegisterFailed(r) && db.nextId == old(db.nextId) + 1 &&
             db.patients == old(db.patients) && db.doctors == old(db.doctors) &&
             db.admins == old(db.admins)
           else
             r == Ok(SessionFor(made.value)) && db.nextId == old(db.nextId) + 2 &&
             ProfileAdded(made.value, old(db.nextId) + 1, now,
                          old(db.patients), old(db.doctors), old(db.admins),
                          db.patients, db.doctors, db.admins)
  {
    var errors := RegisterErrors(req, isEmail);
    if errors != [] {
      return Invalid(errors);
    }
    var email := req.email.value;
    if FindBy(db.users, UserEmail, email).Some? {
      return Fail(400, "User already exists");
    }
    var made := MakeUser(db.nextId, req.name, req.email, Some(hash(Field(req.password))),
                         req.role, req.phone, now);
    if made.None? || FailsAt(fault, 0) {
      return Fail(500, RegisterFailure);
    }
    var u := made.value;
    SaveUser(db, u);
    var ok := CreateProfile(db, u, now, fault);
    if !ok {
      return Fail(500, RegisterFailure);
    }
    return Ok(SessionFor(u));
  }

  // -------------------------------------------------------------------- login

  /** POST /auth/login: the checks first; then an unknown e-mail and a wrong
      password get the same 400 reply, so a client cannot tell them apart.
      The user's `isActive` flag plays no part. */
  function Login(email: Option<string>, password: Option<string>, users: seq<User>,
                 isEmail: string -> bool, verify: (string, string) -> bool): (r: Reply<Session>)
    requires !isEmail("")
    requires UniqueBy(users, UserEmail)
    ensures r.Invalid? <==> !isEmail(Field(email)) || password.None?
    ensures r.Ok? <==>
      isEmail(Field(email)) && password.Some? &&
      exists k :: 0 <= k < |users| && users[k].email == email.value &&
                  verify(password.value, users[k].password)
    ensures !r.Ok? && !r.Invalid? ==> r == Fail(400, "Invalid Credentials")
    ensures r.Ok? ==> exists k :: 0 <= k < |users| && users[k].email == email.value &&
                                  r.body == SessionFor(users[k])
  {
    var errors := (if isEmail(Field(email)) then [] else [EmailInvalid]) +
                  (if password.Some? then [] else [PasswordRequired]);
    if errors != [] then Invalid(errors)
    else match FindBy(users, UserEmail, email.value)
      case None => Fail(400, "Invalid Credentials")
      case Some(i) =>
        if verify(password.value, users[i].password) then Ok(SessionFor(users[i]))
        else
          assert forall k :: 0 <= k < |users| && users[k].email == email.value ==> k == i by {
            forall k | 0 <= k < |users| && users[k].email == email.value
              ensures k == i
            {
              assert UserEmail(users[k]) == UserEmail(users[i]);
            }
          }
          Fail(400, "Invalid Credentials")
  }

  /** Whoever registers can log in with the same e-mail and password, given a
      compare that accepts a password against its own hash. */
  lemma RegisteredCanLogIn(users: seq<User>, u: User, password: string,
                           isEmail: string -> bool, hash: string -> string,
                           verify: (string, string) -> bool)
    requires !isEmail("") && isEmail(u.email)
    requires UniqueBy(users, UserEmail) && FindBy(users, UserEmail, u.email).None?
    requires u.password == hash(password) && verify(password, hash(password))
    ensures Login(Some(u.email), Some(password), users + [u], isEmail, verify) == Ok(SessionFor(u))
  {
    AppendUnique(users, UserEmail, u);
    var all := users + [u];
    assert UserEmail(all[|users|]) == u.email;
    var i := FindBy(all, UserEmail, u.email);
    assert i.Some?;
    assert forall j :: 0 <= j < |users| ==> all[j] == users[j];
    assert i.value == |users|;
  }

  // ---------------------------------------------------------- profile update

  /** The user after PUT /auth/profile: each of `profileImage` and `phone` is
      overwritten only by a non-empty value; every other path is kept. */
  function ApplyProfile(u: User, profileImage: Option<string>, phone: Option<string>): (v: User)
    ensures v.profileImage == if Present(profileImage) then profileImage.value else u.profileImage
    ensures v.phone == if Present(phone) then phone.value else u.phone
    ensures v.(profileImage := u.profileImage, phone := u.phone) == u
    ensures ValidUser(u) ==> ValidUser(v)
  {
    var v := if Present(profileImage) then u.(profileImage := profileImage.value) else u;
    if Present(phone) then v.(phone := phone.value) else v
  }

  /** Sending the same update twice is sending it once. */
  lemma ApplyProfileIdempotent(u: User, profileImage: Option<string>, phone: Option<string>)
    ensures ApplyProfile(ApplyProfile(u, profileImage, phone), profileImage, phone) ==
            ApplyProfile(u, profileImage, phone)
  {
  }

  /** PUT /auth/profile: the caller's own user record gets the update; a
      caller whose user record is gone makes the handler fail with 500. */
  method UpdateProfile(db: Db, caller: Caller, profileImage: Option<string>, phone: Option<string>,
                       fault: Option<nat>) returns (r: Reply<User>)
    requires db.Valid()
    modifies db`users
    ensures db.Valid()
    ensures var i := FindBy(old(db.users), UserId, caller.id);
      if i.None? || FailsAt(fault, 0) then
        r == Fail(500, ServerError) && unchanged(db)
      else
        var v := ApplyProfile(old(db.users)[i.value], profileImage, phone);
        db.users == old(db.users)[i.value := v] && r == Ok(v)
  {
    var i := FindBy(db.users, UserId, caller.id);
    if i.None? || FailsAt(fault, 0) {
      return Fail(500, ServerError);
    }
    var v := ApplyProfile(db.users[i.value], profileImage, phone);
    UpdateUnique(db.users, UserId, i.value, v);
    UpdateUnique(db.users, UserEmail, i.value, v);
    db.users := db.users[i.value := v];
    return Ok(v);
  }
}
