/** backend/routes/admin.js: the moderation routes, all behind
    `authorize('admin')`, which each member takes as the precondition that the
    caller's role is admin. Counting, listing and the audit view are queries;
    the access toggle and the doctor approval update stored users and doctor
    profiles. */
module AdminRoutes {
  import opened Base
  import opened Sorting
  import opened Models
  import opened Store

  // -------------------------------------------------------------------- stats

  /** The body of GET /admin/stats. */
  datatype Stats = Stats(patients: nat, doctors: nat, appointments: nat)

  /** `User.countDocuments({role})`: how many users hold the role. None
      when no user has it, all of them exactly when every user has it. */
  function CountRole(users: seq<User>, role: Role): (r: nat)
    ensures r <= |users|
    ensures r == 0 <==> forall k :: 0 <= k < |users| ==> users[k].role != role
    ensures r == |users| <==> forall k :: 0 <= k < |users| ==> users[k].role == role
  {
    if users == [] then 0
    else
      assert forall k :: 1 <= k < |users| ==> users[k] == users[1..][k - 1];
      (if users[0].role == role then 1 else 0) + CountRole(users[1..], role)
  }

  /** The count is the length of the `find({role})` listing: exactly the
      users with the role. */
  lemma {:induction false} CountRoleIsFilter(users: seq<User>, role: Role)
    ensures CountRole(users, role) == |FilterBy(users, UserRole, role)|
  {
    if users != [] {
      CountRoleIsFilter(users[1..], role);
    }
  }

  /** Every user has exactly one of the three roles. */
  lemma {:induction false} RolesPartitionUsers(users: seq<User>)
    ensures CountRole(users, Patient) + CountRole(users, Doctor) + CountRole(users, Admin) == |users|
  {
    if users != [] {
      RolesPartitionUsers(users[1..]);
    }
  }

  /** GET /admin/stats: the patients and the doctors counted by role, the
      appointments all counted; the two user counts leave out exactly the
      admins. */
  function StatsOf(caller: Caller, users: seq<User>, appointments: seq<Appointment>): (r: Stats)
    requires caller.role == Admin
    ensures r.patients == CountRole(users, Patient) && r.doctors == CountRole(users, Doctor)
    ensures r.patients == |FilterBy(users, UserRole, Patient)| &&
            r.doctors == |FilterBy(users, UserRole, Doctor)|
    ensures r.appointments == |appointments|
    ensures r.patients + r.doctors + CountRole(users, Admin) == |users|
  {
    RolesPartitionUsers(users);
    CountRoleIsFilter(users, Patient);
    CountRoleIsFilter(users, Doctor);
    Stats(CountRole(users, Patient), CountRole(users, Doctor), |appointments|)
  }

  // ------------------------------------------------------------ user listing

  /** A user as listed: every path but the password (`select('-password')`). */
  datatype UserView = UserView(
    id: Id, name: string, email: string, role: Role, profileImage: string, phone: string,
    isActive: bool, createdAt: Time)

  function View(u: User): UserView
  {
    UserView(u.id, u.name, u.email, u.role, u.profileImage, u.phone, u.isActive, u.createdAt)
  }

  function UserRoleName(u: User): string { RoleName(u.role) }

  /** The `role` query filters only when it is a non-empty string. */
  predicate Listed(role: Option<string>, u: User)
  {
    !Present(role) || RoleName(u.role) == role.value
  }

  /** The users GET /admin/users lists, newest first. */
  function ListedUsers(role: Option<string>, users: seq<User>): (r: seq<User>)
    ensures Descending(r, UserCreatedAt)
    ensures forall u :: multiset(r)[u] == if Listed(role, u) then multiset(users)[u] else 0
  {
    if !Present(role) then SortByDesc(users, UserCreatedAt)
    else SortByDesc(FilterBy(users, UserRoleName, role.value), UserCreatedAt)
  }

  /** A role outside the enumeration matches nobody. */
  lemma UnknownRoleListsNobody(role: string, users: seq<User>)
    requires role != "" && role !in RoleNames
    ensures ListedUsers(Some(role), users) == []
  {
    var r := ListedUsers(Some(role), users);
    assert r != [] ==> multiset(r)[r[0]] > 0;
  }

  /** GET /admin/users: the listed users, without their passwords. */
  function ListUsers(caller: Caller, role: Option<string>, users: seq<User>): (r: seq<UserView>)
    requires caller.role == Admin
    ensures |r| == |ListedUsers(role, users)|
    ensures forall k :: 0 <= k < |r| ==> r[k] == View(ListedUsers(role, users)[k])
    ensures forall j, k :: 0 <= j < k < |r| ==> r[j].createdAt >= r[k].createdAt
  {
    var listed := ListedUsers(role, users);
    seq(|listed|, k requires 0 <= k < |listed| => View(listed[k]))
  }

  // ----------------------------------------------------------- toggle access

  /** The user at `i` with `isActive` negated, everyone else as they were. */
  function FlipAccess(users: seq<User>, i: nat): (r: seq<User>)
    requires i < |users|
    ensures |r| == |users|
    ensures r[i].isActive == !users[i].isActive && r[i].(isActive := users[i].isActive) == users[i]
    ensures forall k :: 0 <= k < |r| && k != i ==> r[k] == users[k]
  {
    users[i := users[i].(isActive := !users[i].isActive)]
  }

  /** Toggling twice gives the users back unchanged. */
  lemma FlipTwice(users: seq<User>, i: nat)
    requires i < |users|
    ensures FlipAccess(FlipAccess(users, i), i) == users
  {
  }

  /** Users that differ at most in `isActive` satisfy the same constraints. */
  lemma UsersOkIgnoresActive(users: seq<User>, r: seq<User>, bound: nat)
    requires UsersOk(users, bound) && |r| == |users|
    requires forall k :: 0 <= k < |r| ==> r[k].(isActive := users[k].isActive) == users[k]
    ensures UsersOk(r, bound)
  {
    forall k | 0 <= k < |r|
      ensures r[k].id == users[k].id && r[k].email == users[k].email
    {
      assert r[k].(isActive := users[k].isActive).id == r[k].id;
      assert r[k].(isActive := users[k].isActive).email == r[k].email;
    }
  }

  /** PUT /admin/users/:id/toggle-access: 404 for an unknown user, otherwise
      that user's `isActive` is negated and nothing else changes. */
  method ToggleAccess(db: Db, caller: Caller, id: Id, fault: Option<nat>) returns (r: Reply<User>)
    requires caller.role == Admin
    requires db.Valid()
    modifies db`users
    ensures db.Valid()
    ensures var i := FindBy(old(db.users), UserId, id);
      if i.None? then
        r == Fail(404, "User not found") && unchanged(db)
      else if FailsAt(fault, 0) then
        r == Fail(500, ServerError) && unchanged(db)
      else
        db.users == FlipAccess(old(db.users), i.value) && r == Ok(db.users[i.value])
  {
    var i := FindBy(db.users, UserId, id);
    if i.None? {
      return Fail(404, "User not found");
    }
    if FailsAt(fault, 0) {
      return Fail(500, ServerError);
    }
    var flipped := FlipAccess(db.users, i.value);
    UsersOkIgnoresActive(db.users, flipped, db.nextId);
    db.users := flipped;
    return Ok(flipped[i.value]);
  }

  // --------------------------------------------------------------- audit logs

  const AuditPageSize := 100

  /** GET /admin/audit-logs: the newest 100 entries, newest first. */
  function AuditLogs(caller: Caller, audit: seq<AuditEntry>): (r: seq<AuditEntry>)
    requires caller.role == Admin
    ensures |r| == if |audit| < AuditPageSize then |audit| else AuditPageSize
    ensures Descending(r, AuditTime)
    ensures multiset(r) <= multiset(audit)
    ensures forall x, y :: x in multiset(r) && y in multiset(audit) - multiset(r) ==>
      y.timestamp <= x.timestamp
  {
    var sorted := SortByDesc(audit, AuditTime);
    var r := Limit(sorted, AuditPageSize, AuditTime);
    assert forall y :: y in multiset(audit) - multiset(r) ==> y in multiset(sorted) - multiset(r);
    r
  }

  // ------------------------------------------------------------------ approve

  /** The users after `findByIdAndUpdate(id, {isActive: true})`: the user
      with that id is active, nothing else changes; no such user, no change. */
  function Activate(users: seq<User>, id: Id): (r: seq<User>)
    ensures |r| == |users|
    ensures forall k :: 0 <= k < |r| ==> r[k].(isActive := users[k].isActive) == users[k]
    ensures forall k :: 0 <= k < |r| ==> r[k].isActive == (users[k].isActive || users[k].id == id)
  {
    seq(|users|, k requires 0 <= k < |users| =>
      if users[k].id == id then users[k].(isActive := true) else users[k])
  }

  /** Activating twice is activating once. */
  lemma ActivateIdempotent(users: seq<User>, id: Id)
    ensures Activate(Activate(users, id), id) == Activate(users, id)
  {
  }

  /** PUT /admin/doctors/:id/approve (`id` is the doctor's user id): 404
      without a doctor profile; otherwise the profile is approved, and then
      the user is made active. The second write may fail after the first has
      happened. Approving twice changes nothing the first approval did not. */
  method Approve(db: Db, caller: Caller, userId: Id, fault: Option<nat>) returns (r: Reply<DoctorProfile>)
    requires caller.role == Admin
    requires db.Valid()
    modifies db`doctors, db`users
    ensures db.Valid()
    ensures var i := FindBy(old(db.doctors), DoctorUser, userId);
      if i.None? then
        r == Fail(404, "Doctor profile not found") && unchanged(db)
      else if FailsAt(fault, 0) then
        r == Fail(500, ServerError) && unchanged(db)
      else
        var approved := old(db.doctors)[i.value].(approvedByAdmin := true);
        && db.doctors == old(db.doctors)[i.value := approved]
        && if FailsAt(fault, 1) then
             r == Fail(500, ServerError) && db.users == old(db.users)
           else
             r == Ok(approved) && db.users == Activate(old(db.users), userId)
  {
    var i := FindBy(db.doctors, DoctorUser, userId);
    if i.None? {
      return Fail(404, "Doctor profile not found");
    }
    if FailsAt(fault, 0) {
      return Fail(500, ServerError);
    }
    var approved := db.doctors[i.value].(approvedByAdmin := true);
    UpdateUnique(db.doctors, DoctorUser, i.value, approved);
    db.doctors := db.doctors[i.value := approved];
    if FailsAt(fault, 1) {
      return Fail(500, ServerError);
    }
    var activated := Activate(db.users, userId);
    UsersOkIgnoresActive(db.users, activated, db.nextId);
    db.users := activated;
    return Ok(approved);
  }
}
