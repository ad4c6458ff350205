/** The database the route handlers read and write: one sequence per MongoDB
    collection, in natural (insertion) order, and a counter standing for
    ObjectId generation. `Valid` holds the constraints the schemas and the
    handlers keep: unique user ids and e-mails, at most one profile of each
    kind per user, required paths present, and every generated id below the
    counter. The `middleware/auth` module is not part of this model; its
    result, the authenticated caller, is a `Caller` value. */
module Store {
  import opened Base
  import opened Models

  /** `req.user` as set by the authentication middleware. */
  datatype Caller = Caller(id: Id, role: Role, name: string)

  ghost predicate UsersOk(users: seq<User>, bound: nat)
  {
    && UniqueBy(users, UserId)
    && UniqueBy(users, UserEmail)
    && (forall k :: 0 <= k < |users| ==> users[k].id < bound && ValidUser(users[k]))
  }

  ghost predicate AppointmentsOk(appointments: seq<Appointment>, bound: nat)
  {
    forall k :: 0 <= k < |appointments| ==>
      appointments[k].id < bound && ValidAppointment(appointments[k])
  }

  ghost predicate RecordsOk(records: seq<MedicalRecord>)
  {
    forall k :: 0 <= k < |records| ==> ValidRecord(records[k])
  }

  /** Every audit entry names its action, the one required string path. */
  ghost predicate AuditOk(audit: seq<AuditEntry>)
  {
    forall k :: 0 <= k < |audit| ==> audit[k].action != ""
  }

  /** A profile's documents carry distinct ids, all handed out already. */
  ghost predicate DocumentsOk(documents: seq<Document>, bound: nat)
  {
    && UniqueBy(documents, DocumentId)
    && (forall j :: 0 <= j < |documents| ==> documents[j].id < bound)
  }

  ghost predicate PatientsOk(patients: seq<PatientProfile>, bound: nat)
  {
    && UniqueBy(patients, PatientUser)
    && (forall k :: 0 <= k < |patients| ==> DocumentsOk(patients[k].documents, bound))
  }

  /** Replacing one profile by another of the same user, whose documents are
      in order, keeps the patient store in order. */
  lemma PatientsOkUpdate(patients: seq<PatientProfile>, bound: nat, i: nat, p: PatientProfile)
    requires PatientsOk(patients, bound)
    requires i < |patients| && p.userId == patients[i].userId
    requires DocumentsOk(p.documents, bound)
    ensures PatientsOk(patients[i := p], bound)
  {
    UpdateUnique(patients, PatientUser, i, p);
  }

  /** Handing out a fresh id keeps every id-bound constraint. */
  lemma BoundGrows(users: seq<User>, patients: seq<PatientProfile>,
                   appointments: seq<Appointment>, bound: nat, bound': nat)
    requires bound <= bound'
    requires UsersOk(users, bound) && PatientsOk(patients, bound)
    requires AppointmentsOk(appointments, bound)
    ensures UsersOk(users, bound') && PatientsOk(patients, bound')
    ensures AppointmentsOk(appointments, bound')
  {
    forall k | 0 <= k < |patients|
      ensures DocumentsOk(patients[k].documents, bound')
    {
      assert DocumentsOk(patients[k].documents, bound);
    }
  }

  /** Saving a valid user with a fresh id and an unused e-mail keeps the user
      store in order. */
  lemma UsersOkAppend(users: seq<User>, bound: nat, u: User)
    requires UsersOk(users, bound) && u.id == bound && ValidUser(u)
    requires FindBy(users, UserEmail, u.email).None?
    ensures UsersOk(users + [u], bound + 1)
  {
    assert FindBy(users, UserId, u.id).None?;
    AppendUnique(users, UserId, u);
    AppendUnique(users, UserEmail, u);
    var s := users + [u];
    assert forall k :: 0 <= k < |s| ==> s[k] == if k < |users| then users[k] else u;
  }

  /** Saving a valid appointment with a fresh id keeps the appointments in
      order. */
  lemma AppointmentsOkAppend(appointments: seq<Appointment>, bound: nat, a: Appointment)
    requires AppointmentsOk(appointments, bound) && a.id == bound && ValidAppointment(a)
    ensures AppointmentsOk(appointments + [a], bound + 1)
  {
    var s := appointments + [a];
    assert forall k :: 0 <= k < |s| ==> s[k] == if k < |appointments| then appointments[k] else a;
  }

  /** Overwriting one appointment by a valid one with the same id keeps the
      appointments in order. */
  lemma AppointmentsOkSet(appointments: seq<Appointment>, bound: nat, i: nat, a: Appointment)
    requires AppointmentsOk(appointments, bound) && i < |appointments|
    requires a.id == appointments[i].id && ValidAppointment(a)
    ensures AppointmentsOk(appointments[i := a], bound)
  {
  }

  class Db {
    var users: seq<User>
    var patients: seq<PatientProfile>
    var doctors: seq<DoctorProfile>
    var admins: seq<AdminProfile>
    var appointments: seq<Appointment>
    var records: seq<MedicalRecord>
    var notifications: seq<Notification>
    var audit: seq<AuditEntry>
    var nextId: nat

    ghost predicate Valid()
      reads this`users, this`patients, this`doctors, this`admins, this`appointments,
            this`records, this`audit, this`nextId
    {
      && UsersOk(users, nextId)
      && PatientsOk(patients, nextId)
      && UniqueBy(doctors, DoctorUser)
      && UniqueBy(admins, AdminUser)
      && AppointmentsOk(appointments, nextId)
      && RecordsOk(records)
      && AuditOk(audit)
    }

    /** An empty database. */
    constructor ()
      ensures Valid()
      ensures users == [] && patients == [] && doctors == [] && admins == []
      ensures appointments == [] && records == [] && notifications == [] && audit == []
    {
      users, patients, doctors, admins := [], [], [], [];
      appointments, records, notifications, audit := [], [], [], [];
      nextId := 0;
    }
  }

  /** A fresh ObjectId: larger than every id handed out before. */
  method NewId(db: Db) returns (id: Id)
    requires db.Valid()
    modifies db`nextId
    ensures db.Valid()
    ensures id == old(db.nextId) && db.nextId == id + 1
  {
    BoundGrows(db.users, db.patients, db.appointments, db.nextId, db.nextId + 1);
    id := db.nextId;
    db.nextId := db.nextId + 1;
  }
}
