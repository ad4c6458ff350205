/** The appointment lifecycle of backend/routes/appointments.js: booking with
    the urgency classifier and the notification fan-out, the role-dependent
    listing, the status update and the reminder. */
module Appointments {
  import opened Base
  import opened Text
  import opened Sorting
  import opened Models
  import opened Store

  // ------------------------------------------------------ urgency classifier

  const CriticalWords := ["pain", "emergency", "severe", "bleeding", "heart"]
  const WarningWords := ["fever", "flu", "cough", "infection", "cold"]

  /** The severity of the doctor's booking notice (see `UrgencyRule`). */
  function Urgency(reason: string): Severity
  {
    var s := Lower(reason);
    if Contains(s, "pain") || Contains(s, "emergency") || Contains(s, "severe")
       || Contains(s, "bleeding") || Contains(s, "heart") then
      Critical
    else if Contains(s, "fever") || Contains(s, "flu") || Contains(s, "cough")
            || Contains(s, "infection") || Contains(s, "cold") then
      Warning
    else
      Info
  }

  /** The classification is decided on the lower-cased reason: a critical
      keyword wins, then a warning keyword, else info. */
  lemma UrgencyRule(reason: string)
    ensures Urgency(reason) == Critical <==> ContainsAny(Lower(reason), CriticalWords)
    ensures Urgency(reason) == Warning <==>
      !ContainsAny(Lower(reason), CriticalWords) && ContainsAny(Lower(reason), WarningWords)
    ensures Urgency(reason) == Info <==>
      !ContainsAny(Lower(reason), CriticalWords) && !ContainsAny(Lower(reason), WarningWords)
  {
    var s := Lower(reason);
    ContainsOneOfFive(s, "pain", "emergency", "severe", "bleeding", "heart");
    ContainsOneOfFive(s, "fever", "flu", "cough", "infection", "cold");
  }

  /** The classification does not depend on letter case. */
  lemma UrgencyIgnoresCase(reason: string)
    ensures Urgency(Lower(reason)) == Urgency(reason)
  {
    LowerIdempotent(reason);
  }

  /** A critical keyword decides the outcome whatever else the reason says. */
  lemma CriticalWins(reason: string)
    requires Contains(Lower(reason), "severe")
    ensures Urgency(reason) == Critical
  {
    UrgencyRule(reason);
    assert "severe" in CriticalWords;
  }

  /** A reason mentioning a fever in any letter case, and no critical word,
      is a warning. */
  lemma FeverIsWarning(reason: string)
    requires Contains(Lower(reason), "fever")
    requires !ContainsAny(Lower(reason), CriticalWords)
    ensures Urgency(reason) == Warning
  {
    UrgencyRule(reason);
    assert "fever" in WarningWords;
  }

  // ------------------------------------------------------------------ booking

  /** The body of POST /appointments; a field the client left out is None. */
  datatype BookingRequest = BookingRequest(
    doctorId: Option<Id>, date: Option<Time>, timeSlot: Option<string>, reason: Option<string>)

  /** The doctor's name as the notices show it: `Unknown` when no user has the id. */
  function DoctorName(users: seq<User>, doctorId: Id): (r: string)
    ensures (forall k :: 0 <= k < |users| ==> users[k].id != doctorId) ==> r == "Unknown"
    ensures (exists k :: 0 <= k < |users| && users[k].id == doctorId) ==>
      exists k :: 0 <= k < |users| && users[k].id == doctorId && r == users[k].name
  {
    match FindBy(users, UserId, doctorId)
    case None => "Unknown"
    case Some(i) => users[i].name
  }

  /** The users with role admin, in store order: `User.find({role: 'admin'})`. */
  function AdminsOf(users: seq<User>): (r: seq<User>)
    ensures forall k :: 0 <= k < |r| ==> r[k].role == Admin
  {
    FilterBy(users, UserRole, Admin)
  }

  /** Every admin-role user is alerted, as often as the store holds them. */
  lemma AdminsOfAll(users: seq<User>)
    ensures forall u :: multiset(AdminsOf(users))[u] == if u.role == Admin then multiset(users)[u] else 0
  {
  }

  /** One booking alert per admin, in the order of `admins`. */
  function AdminAlerts(admins: seq<User>, patientName: string, doctorName: string): seq<Notification>
  {
    seq(|admins|, k requires 0 <= k < |admins| =>
      Notification(admins[k].id, NewBooking(patientName, doctorName), Info))
  }

  /** Every notification a successful booking sends, in the order it sends
      them: the doctor (with the urgency), the patient, then each admin. */
  function BookingNotices(users: seq<User>, caller: Caller, doctorId: Id, reason: string,
                          date: Time, timeSlot: string): (r: seq<Notification>)
    ensures |r| == 2 + |AdminsOf(users)|
    ensures r[0].userId == doctorId && r[0].kind == Urgency(reason)
    ensures r[1].userId == caller.id
    ensures forall k :: 1 <= k < |r| ==> r[k].kind == Info
    ensures forall k :: 2 <= k < |r| ==>
      r[k].userId == AdminsOf(users)[k - 2].id && AdminsOf(users)[k - 2].role == Admin
  {
    var doctorName := DoctorName(users, doctorId);
    var admins := AdminsOf(users);
    [Notification(doctorId, NewRequest(reason, date, timeSlot), Urgency(reason)),
     Notification(caller.id, RequestSent(doctorName, date), Info)]
    + AdminAlerts(admins, caller.name, doctorName)
  }

  /** A booking for a doctor id no user has still notifies that id, and the
      other notices name the doctor `Unknown`. */
  lemma UnknownDoctor(users: seq<User>, caller: Caller, doctorId: Id, reason: string,
                      date: Time, timeSlot: string)
    requires forall k :: 0 <= k < |users| ==> users[k].id != doctorId
    ensures var r := BookingNotices(users, caller, doctorId, reason, date, timeSlot);
      r[0].userId == doctorId && r[1].message == RequestSent("Unknown", date) &&
      forall k :: 2 <= k < |r| ==> r[k].message == NewBooking(caller.name, "Unknown")
  {
  }

  /** POST /appointments: save a Pending appointment for the caller, classify
      the reason, then notify the doctor, the patient and every admin. A
      failing write ends the handler with 500 and leaves the earlier writes in
      place; a request without a reason is saved and then fails with 500
      before any notification, because the handler lower-cases the missing
      reason. */
  method Book(db: Db, caller: Caller, req: BookingRequest, now: Time, fault: Option<nat>)
    returns (r: Reply<Appointment>)
    requires db.Valid()
    modifies db`appointments, db`notifications, db`nextId
    ensures db.Valid()
    ensures var made := MakeAppointment(old(db.nextId), Some(caller.id), req.doctorId, req.date,
                                        req.timeSlot, req.reason, Some("Pending"), now);
      if made.None? || FailsAt(fault, 0) then
        r == Fail(500, ServerError) && unchanged(db)
      else
        && made.value.status == Pending && made.value.patientId == caller.id
        && db.appointments == old(db.appointments) + [made.value]
        && db.nextId == old(db.nextId) + 1
        && if req.reason.None? then
             r == Fail(500, ServerError) && db.notifications == old(db.notifications)
           else
             var notices := BookingNotices(db.users, caller, made.value.doctorId, req.reason.value,
                                           made.value.date, made.value.timeSlot);
             if fault.Some? && 1 <= fault.value <= |notices| then
               r == Fail(500, ServerError) &&
               db.notifications == old(db.notifications) + notices[..fault.value - 1]
             else
               r == Ok(made.value) && db.notifications == old(db.notifications) + notices
  {
    assert ParseStatus("Pending") == Some(Pending);
    var made := MakeAppointment(db.nextId, Some(caller.id), req.doctorId, req.date,
                                req.timeSlot, req.reason, Some("Pending"), now);
    if made.None? || FailsAt(fault, 0) {
      return Fail(500, ServerError);
    }
    var a := made.value;
    assert a.status == Pending && a.patientId == caller.id && ValidAppointment(a);
    SaveAppointment(db, a);
    assert db.appointments == old(db.appointments) + [a] && db.nextId == old(db.nextId) + 1;

    if req.reason.None? {
      return Fail(500, ServerError);
    }
    var ok := Announce(db, caller, a, req.reason.value, fault);
    assert db.Valid();
    if !ok {
      return Fail(500, ServerError);
    }
    return Ok(a);
  }

  /** The notification writes of a booking, numbered from 1 after the
      appointment's own write. */
  method Announce(db: Db, caller: Caller, a: Appointment, reason: string, fault: Option<nat>)
    returns (ok: bool)
    modifies db`notifications
    ensures var notices := BookingNotices(db.users, caller, a.doctorId, reason, a.date, a.timeSlot);
      if fault.Some? && 1 <= fault.value <= |notices| then
        !ok && db.notifications == old(db.notifications) + notices[..fault.value - 1]
      else
        ok && db.notifications == old(db.notifications) + notices
  {
    var notices := BookingNotices(db.users, caller, a.doctorId, reason, a.date, a.timeSlot);
    ok := Deliver(db, notices, fault, 1);
  }

  /** The first write of a booking: the appointment, under a fresh id. */
  method SaveAppointment(db: Db, a: Appointment)
    requires db.Valid() && a.id == db.nextId && ValidAppointment(a)
    modifies db`appointments, db`nextId
    ensures db.Valid()
    ensures db.appointments == old(db.appointments) + [a] && db.nextId == old(db.nextId) + 1
  {
    AppointmentsOkAppend(db.appointments, db.nextId, a);
    var _ := NewId(db);
    db.appointments := db.appointments + [a];
  }

  /** The handler's notification writes, awaited one after another in the
      given order; the write numbered `fault` (counting from `first`) fails
      and ends the handler, keeping the notifications already written. */
  method Deliver(db: Db, notices: seq<Notification>, fault: Option<nat>, first: nat)
    returns (ok: bool)
    modifies db`notifications
    ensures if fault.Some? && first <= fault.value < first + |notices| then
        !ok && db.notifications == old(db.notifications) + notices[..fault.value - first]
      else
        ok && db.notifications == old(db.notifications) + notices
  {
    var i := 0;
    while i < |notices|
      invariant 0 <= i <= |notices|
      invariant db.notifications == old(db.notifications) + notices[..i]
      invariant fault.Some? ==> !(first <= fault.value < first + i)
    {
      if FailsAt(fault, first + i) {
        return false;
      }
      db.notifications := db.notifications + [notices[i]];
      i := i + 1;
    }
    assert notices[..i] == notices;
    return true;
  }

  // ------------------------------------------------------------------ listing

  /** The appointments a caller's listing covers: a doctor's own bookings
      as the doctor, anyone else's as the patient. */
  predicate Sees(caller: Caller, a: Appointment)
  {
    if caller.role == Doctor then a.doctorId == caller.id else a.patientId == caller.id
  }

  /** GET /appointments: a doctor sees the appointments booked with them,
      soonest first; anyone else sees the ones they booked, latest first. */
  function ListFor(caller: Caller, appointments: seq<Appointment>): (r: seq<Appointment>)
    ensures caller.role == Doctor ==> Ascending(r, DateOf)
    ensures caller.role != Doctor ==> Descending(r, DateOf)
    ensures forall a :: multiset(r)[a] == (if Sees(caller, a) then multiset(appointments)[a] else 0)
  {
    if caller.role == Doctor then SortBy(FilterBy(appointments, DoctorOf, caller.id), DateOf)
    else SortByDesc(FilterBy(appointments, PatientOf, caller.id), DateOf)
  }

  // ------------------------------------------------------------ status update

  /** PUT /appointments/:id/status: 404 for an unknown id, 401 for a doctor
      who does not own the appointment; otherwise the status is overwritten
      with no check of the transition, and the patient gets one notice, info
      for Approved and warning for anything else. A status outside the
      enumeration fails the save (500) and changes nothing. */
  method UpdateStatus(db: Db, caller: Caller, id: Id, status: string, fault: Option<nat>)
    returns (r: Reply<Appointment>)
    requires db.Valid()
    modifies db`appointments, db`notifications
    ensures db.Valid()
    ensures var i := FindBy(old(db.appointments), AppointmentId, id);
      if i.None? then
        r == Fail(404, "Appointment not found") && unchanged(db)
      else
        var a := old(db.appointments)[i.value];
        if caller.role == Doctor && a.doctorId != caller.id then
          r == Fail(401, "Not authorized") && unchanged(db)
        else if ParseStatus(status).None? || FailsAt(fault, 0) then
          r == Fail(500, ServerError) && unchanged(db)
        else
          var updated := a.(status := ParseStatus(status).value);
          && db.appointments == old(db.appointments)[i.value := updated]
          && if FailsAt(fault, 1) then
               r == Fail(500, ServerError) && db.notifications == old(db.notifications)
             else
               r == Ok(updated) &&
               db.notifications == old(db.notifications) +
                 [Notification(a.patientId, StatusUpdated(status),
                               if status == "Approved" then Info else Warning)]
  {
    var i := FindBy(db.appointments, AppointmentId, id);
    if i.None? {
      return Fail(404, "Appointment not found");
    }
    var a := db.appointments[i.value];
    if caller.role == Doctor && a.doctorId != caller.id {
      return Fail(401, "Not authorized");
    }
    var parsed := ParseStatus(status);
    if parsed.None? || FailsAt(fault, 0) {
      return Fail(500, ServerError);
    }
    var updated := a.(status := parsed.value);
    db.appointments := db.appointments[i.value := updated];
    if FailsAt(fault, 1) {
      return Fail(500, ServerError);
    }
    var kind := if status == "Approved" then Info else Warning;
    db.notifications := db.notifications + [Notification(a.patientId, StatusUpdated(status), kind)];
    return Ok(updated);
  }

  // ----------------------------------------------------------------- reminder

  /** The reminder a caller may send for an appointment: a doctor who owns it
      reminds the patient, a patient who owns it reminds the doctor, and
      nobody else (an admin included) may send one. */
  function ReminderFor(caller: Caller, a: Appointment): (r: Option<Notification>)
    ensures r.Some? <==>
      (caller.role == Doctor && a.doctorId == caller.id) ||
      (caller.role == Patient && a.patientId == caller.id)
    ensures r.Some? ==> r.value.kind == Info
    ensures r.Some? && caller.role == Doctor ==> r.value.userId == a.patientId
    ensures r.Some? && caller.role == Patient ==> r.value.userId == a.doctorId
  {
    if caller.role == Doctor && a.doctorId == caller.id then
      Some(Notification(a.patientId, RemindPatient(caller.name, a.date, a.timeSlot), Info))
    else if caller.role == Patient && a.patientId == caller.id then
      Some(Notification(a.doctorId, RemindDoctor(caller.name, a.date, a.timeSlot), Info))
    else
      None
  }

  /** POST /appointments/:id/remind: notify the other party, then set
      `reminded`. The notice is written before the flag, so a failing
      second write leaves the notice sent and the flag as it was. No call
      ever clears the flag, and every successful call sends one more notice. */
  method Remind(db: Db, caller: Caller, id: Id, fault: Option<nat>) returns (r: Reply<string>)
    requires db.Valid()
    modifies db`appointments, db`notifications
    ensures db.Valid()
    ensures |db.appointments| == |old(db.appointments)|
    ensures forall k :: 0 <= k < |db.appointments| && old(db.appointments)[k].reminded ==>
      db.appointments[k].reminded
    ensures var i := FindBy(old(db.appointments), AppointmentId, id);
      if i.None? then
        r == Fail(404, "Appointment not found") && unchanged(db)
      else
        var a := old(db.appointments)[i.value];
        var notice := ReminderFor(caller, a);
        if notice.None? then
          r == Fail(401, "Not authorized to remind for this appointment") && unchanged(db)
        else if FailsAt(fault, 0) then
          r == Fail(500, ServerError) && unchanged(db)
        else
          && db.notifications == old(db.notifications) + [notice.value]
          && if FailsAt(fault, 1) then
               r == Fail(500, ServerError) && db.appointments == old(db.appointments)
             else
               r == Ok("Reminder sent successfully") &&
               db.appointments == old(db.appointments)[i.value := a.(reminded := true)]
  {
    var i := FindBy(db.appointments, AppointmentId, id);
    if i.None? {
      return Fail(404, "Appointment not found");
    }
    var a := db.appointments[i.value];
    var notice := ReminderFor(caller, a);
    if notice.None? {
      return Fail(401, "Not authorized to remind for this appointment");
    }
    if FailsAt(fault, 0) {
      return Fail(500, ServerError);
    }
    db.notifications := db.notifications + [notice.value];
    if FailsAt(fault, 1) {
      return Fail(500, ServerError);
    }
    db.appointments := db.appointments[i.value := a.(reminded := true)];
    return Ok("Reminder sent successfully");
  }
}
