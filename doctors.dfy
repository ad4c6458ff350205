/** backend/routes/doctors.js: the public doctor directory (a projection of
    each doctor profile joined with its user), the doctor's own availability
    update, and the doctor's own profile. */
module Doctors {
  import opened Base
  import opened Models
  import opened Store

  // ---------------------------------------------------------------- directory

  /** One entry of GET /doctors; `id` is the doctor's user id, the one a
      booking names. */
  datatype Listing = Listing(
    id: Id, name: string, email: string, specialization: string, experience: int,
    availability: seq<Availability>)

  /** The profile at `k` has a user to join with. */
  predicate Linked(doctors: seq<DoctorProfile>, users: seq<User>, k: nat)
    requires k < |doctors|
  {
    FindBy(users, UserId, doctors[k].userId).Some?
  }

  /** The entry for the profile at `k`, joined with its user: the user's id,
      name and e-mail, the profile's specialization, experience and
      availability. */
  function ListingAt(doctors: seq<DoctorProfile>, users: seq<User>, k: nat): (r: Listing)
    requires k < |doctors| && Linked(doctors, users, k)
    ensures r.id == doctors[k].userId && r.specialization == doctors[k].specialization
    ensures r.experience == doctors[k].experience && r.availability == doctors[k].availability
    ensures exists j :: 0 <= j < |users| && users[j].id == doctors[k].userId &&
                        r.name == users[j].name && r.email == users[j].email
  {
    var u := users[FindBy(users, UserId, doctors[k].userId).value];
    Listing(u.id, u.name, u.email, doctors[k].specialization, doctors[k].experience,
            doctors[k].availability)
  }

  /** GET /doctors: one entry per profile, in store order, naming the user
      and showing the profile's specialization, experience and availability.
      A profile whose user is gone makes the join yield nothing, reading its
      id fails, and the whole listing is a 500. */
  function Directory(doctors: seq<DoctorProfile>, users: seq<User>): (r: Reply<seq<Listing>>)
    ensures r.Ok? <==> forall k :: 0 <= k < |doctors| ==> Linked(doctors, users, k)
    ensures !r.Ok? ==> r == Fail(500, ServerError)
    ensures r.Ok? ==> |r.body| == |doctors|
    ensures r.Ok? ==> forall k :: 0 <= k < |doctors| ==>
      && r.body[k].id == doctors[k].userId
      && r.body[k].specialization == doctors[k].specialization
      && r.body[k].experience == doctors[k].experience
      && r.body[k].availability == doctors[k].availability
      && exists j :: 0 <= j < |users| && users[j].id == doctors[k].userId &&
                     r.body[k].name == users[j].name && r.body[k].email == users[j].email
  {
    if forall k :: 0 <= k < |doctors| ==> Linked(doctors, users, k) then
      Ok(seq(|doctors|, k requires 0 <= k < |doctors| && Linked(doctors, users, k) =>
        ListingAt(doctors, users, k)))
    else
      Fail(500, ServerError)
  }

  // ------------------------------------------------------------- availability

  /** PUT /doctors/availability: only a doctor may call it (403), and only
      with a profile (404); the availability is replaced as a whole and no
      other path of the profile changes. */
  method UpdateAvailability(db: Db, caller: Caller, availability: seq<Availability>,
                            fault: Option<nat>) returns (r: Reply<DoctorProfile>)
    requires db.Valid()
    modifies db`doctors
    ensures db.Valid()
    ensures var i := FindBy(old(db.doctors), DoctorUser, caller.id);
      if caller.role != Doctor then
        r == Fail(403, "Not authorized") && unchanged(db)
      else if i.None? then
        r == Fail(404, "Doctor profile not found") && unchanged(db)
      else if FailsAt(fault, 0) then
        r == Fail(500, ServerError) && unchanged(db)
      else
        var d := old(db.doctors)[i.value];
        && r.Ok? && r.body.availability == availability
        && r.body.(availability := d.availability) == d
        && db.doctors == old(db.doctors)[i.value := r.body]
  {
    if caller.role != Doctor {
      return Fail(403, "Not authorized");
    }
    var i := FindBy(db.doctors, DoctorUser, caller.id);
    if i.None? {
      return Fail(404, "Doctor profile not found");
    }
    if FailsAt(fault, 0) {
      return Fail(500, ServerError);
    }
    var updated := db.doctors[i.value].(availability := availability);
    UpdateUnique(db.doctors, DoctorUser, i.value, updated);
    db.doctors := db.doctors[i.value := updated];
    return Ok(updated);
  }

  // ------------------------------------------------------------------ profile

  /** The populated user of a profile: name and e-mail, or nothing when the
      user is gone. */
  datatype UserRef = UserRef(id: Id, name: string, email: string)

  datatype ProfileView = ProfileView(profile: DoctorProfile, user: Option<UserRef>)

  /** GET /doctors/profile: the caller's own doctor profile with their name
      and e-mail, 404 without one. The caller's role is not checked. */
  function ProfileOf(caller: Caller, doctors: seq<DoctorProfile>, users: seq<User>): (r: Reply<ProfileView>)
    ensures r.Ok? <==> exists k :: 0 <= k < |doctors| && doctors[k].userId == caller.id
    ensures !r.Ok? ==> r == Fail(404, "Profile not found")
    ensures r.Ok? ==> r.body.profile in doctors && r.body.profile.userId == caller.id
    ensures r.Ok? ==> (r.body.user.Some? <==> exists j :: 0 <= j < |users| && users[j].id == caller.id)
    ensures r.Ok? && r.body.user.Some? ==>
      && r.body.user.value.id == caller.id
      && exists j :: 0 <= j < |users| && users[j].id == caller.id &&
                     r.body.user.value.name == users[j].name && r.body.user.value.email == users[j].email
  {
    match FindBy(doctors, DoctorUser, caller.id)
    case None => Fail(404, "Profile not found")
    case Some(i) =>
      var user := match FindBy(users, UserId, caller.id)
        case None => None
        case Some(j) => Some(UserRef(users[j].id, users[j].name, users[j].email));
      Ok(ProfileView(doctors[i], user))
  }
}
