/** The Mongoose schemas of backend/models: one datatype per collection, the
    enumerations, and for each schema the validity it enforces at `save()`
    together with the defaults it fills in. Object ids are natural numbers and
    dates are millisecond timestamps. */
module Models {
  import opened Base

  type Id = nat
  type Time = int

  /** Mongoose's `required` check on a String path: present and not empty. */
  predicate Present(s: Option<string>)
  {
    s.Some? && s.value != ""
  }

  // ---------------------------------------------------------------- User.js

  datatype Role = Patient | Doctor | Admin

  const DefaultRole := Patient
  const RoleNames := ["patient", "doctor", "admin"]
  const DefaultProfileImage := "https://cdn-icons-png.flaticon.com/512/3135/3135715.png"

  /** The `enum` of the `role` path: the strings it accepts. */
  function ParseRole(s: string): (r: Option<Role>)
    ensures r.Some? <==> s in RoleNames
  {
    if s == "patient" then Some(Patient)
    else if s == "doctor" then Some(Doctor)
    else if s == "admin" then Some(Admin)
    else None
  }

  function RoleName(r: Role): (s: string)
    ensures ParseRole(s) == Some(r)
  {
    match r
    case Patient => "patient"
    case Doctor => "doctor"
    case Admin => "admin"
  }

  datatype User = User(
    id: Id, name: string, email: string, password: string, role: Role,
    profileImage: string, phone: string, isActive: bool, createdAt: Time)

  /** The required paths of the User schema hold values. */
  predicate ValidUser(u: User)
  {
    u.name != "" && u.email != "" && u.password != "" && u.phone != ""
  }

  function UserId(u: User): Id { u.id }
  function UserEmail(u: User): string { u.email }
  function UserRole(u: User): Role { u.role }
  function UserCreatedAt(u: User): Time { u.createdAt }

  /** `new User({...}).save()`: rejected unless the required paths are present
      and the role is one of the enumeration; `role` defaults to patient,
      `isActive` to true, `profileImage` to the stock avatar. */
  function MakeUser(id: Id, name: Option<string>, email: Option<string>, password: Option<string>,
                    role: Option<string>, phone: Option<string>, now: Time): (r: Option<User>)
    ensures r.Some? <==>
      Present(name) && Present(email) && Present(password) && Present(phone) &&
      (role.None? || role.value in RoleNames)
    ensures r.Some? ==> ValidUser(r.value) && r.value.id == id && r.value.isActive
    ensures r.Some? ==> r.value.name == name.value && r.value.email == email.value &&
                        r.value.password == password.value && r.value.phone == phone.value
    ensures r.Some? ==> r.value.role == if role.None? then DefaultRole else ParseRole(role.value).value
    ensures r.Some? ==> r.value.profileImage == DefaultProfileImage && r.value.createdAt == now
  {
    if !(Present(name) && Present(email) && Present(password) && Present(phone)) then None
    else
      var parsed := if role.None? then Some(DefaultRole) else ParseRole(role.value);
      match parsed
      case None => None
      case Some(rl) =>
        Some(User(id, name.value, email.value, password.value, rl, DefaultProfileImage,
                  phone.value, true, now))
  }

  // --------------------------------------------------------- Appointment.js

  datatype Status = Pending | Booked | Approved | Completed | Cancelled

  const DefaultStatus := Booked
  const StatusNames := ["Pending", "Booked", "Approved", "Completed", "Cancelled"]

  /** The `enum` of the `status` path: the strings it accepts. */
  function ParseStatus(s: string): (r: Option<Status>)
    ensures r.Some? <==> s in StatusNames
  {
    if s == "Pending" then Some(Pending)
    else if s == "Booked" then Some(Booked)
    else if s == "Approved" then Some(Approved)
    else if s == "Completed" then Some(Completed)
    else if s == "Cancelled" then Some(Cancelled)
    else None
  }

  function StatusName(st: Status): (s: string)
    ensures ParseStatus(s) == Some(st)
  {
    match st
    case Pending => "Pending"
    case Booked => "Booked"
    case Approved => "Approved"
    case Completed => "Completed"
    case Cancelled => "Cancelled"
  }

  datatype Appointment = Appointment(
    id: Id, patientId: Id, doctorId: Id, date: Time, timeSlot: string, reason: string,
    status: Status, reminded: bool, createdAt: Time)

  /** The required paths of the Appointment schema hold values (the status
      is in the enumeration by its type). */
  predicate ValidAppointment(a: Appointment)
  {
    a.timeSlot != ""
  }

  function AppointmentId(a: Appointment): Id { a.id }
  function PatientOf(a: Appointment): Id { a.patientId }
  function DoctorOf(a: Appointment): Id { a.doctorId }
  function DateOf(a: Appointment): Time { a.date }

  /** `new Appointment({...}).save()`: rejected when a required path is
      missing or the status is outside the enumeration; `reason` defaults to
      the empty string, `status` to Booked, `reminded` to false and `createdAt`
      to the creation time. */
  function MakeAppointment(id: Id, patientId: Option<Id>, doctorId: Option<Id>, date: Option<Time>,
                           timeSlot: Option<string>, reason: Option<string>, status: Option<string>,
                           now: Time): (r: Option<Appointment>)
    ensures r.Some? <==>
      patientId.Some? && doctorId.Some? && date.Some? && Present(timeSlot) &&
      (status.None? || status.value in StatusNames)
    ensures r.Some? ==> ValidAppointment(r.value) && r.value.id == id && !r.value.reminded
    ensures r.Some? ==> r.value.createdAt == now
    ensures r.Some? ==> r.value.patientId == patientId.value && r.value.doctorId == doctorId.value &&
                        r.value.date == date.value && r.value.timeSlot == timeSlot.value
    ensures r.Some? ==> r.value.reason == if reason.None? then "" else reason.value
    ensures r.Some? ==> r.value.status == if status.None? then DefaultStatus else ParseStatus(status.value).value
  {
    if !(patientId.Some? && doctorId.Some? && date.Some? && Present(timeSlot)) then None
    else
      var st := if status.None? then Some(DefaultStatus) else ParseStatus(status.value);
      match st
      case None => None
      case Some(s) =>
        Some(Appointment(id, patientId.value, doctorId.value, date.value, timeSlot.value,
                         if reason.None? then "" else reason.value, s, false, now))
  }

  // ------------------------------------------------------- MedicalRecord.js

  datatype MedicalRecord = MedicalRecord(
    id: Id, patientId: Id, doctorId: Id, appointmentId: Id,
    diagnosis: string, prescription: string, notes: string, createdAt: Time)

  predicate ValidRecord(m: MedicalRecord)
  {
    m.diagnosis != "" && m.prescription != "" && m.notes != ""
  }

  function RecordPatient(m: MedicalRecord): Id { m.patientId }
  function RecordCreatedAt(m: MedicalRecord): Time { m.createdAt }

  /** `new MedicalRecord({...}).save()`: rejected unless diagnosis,
      prescription and notes are all present; the texts are stored exactly as
      given (nothing encrypts them) and `createdAt` is the creation time. */
  function MakeRecord(id: Id, patientId: Id, doctorId: Id, appointmentId: Id,
                      diagnosis: Option<string>, prescription: Option<string>, notes: Option<string>,
                      now: Time): (r: Option<MedicalRecord>)
    ensures r.Some? <==> Present(diagnosis) && Present(prescription) && Present(notes)
    ensures r.Some? ==> ValidRecord(r.value) && r.value.id == id && r.value.createdAt == now
    ensures r.Some? ==> r.value.patientId == patientId && r.value.doctorId == doctorId &&
                        r.value.appointmentId == appointmentId
    ensures r.Some? ==> r.value.diagnosis == diagnosis.value && r.value.prescription == prescription.value &&
                        r.value.notes == notes.value
  {
    if Present(diagnosis) && Present(prescription) && Present(notes) then
      Some(MedicalRecord(id, patientId, doctorId, appointmentId,
                         diagnosis.value, prescription.value, notes.value, now))
    else None
  }

  // -------------------------------------------------------------- Doctor.js

  /** One entry of a doctor's weekly availability. */
  datatype Availability = Availability(day: string, slots: seq<string>)

  datatype DoctorProfile = DoctorProfile(
    id: Id, userId: Id, specialization: string, qualification: string, experience: int,
    approvedByAdmin: bool, availability: seq<Availability>, createdAt: Time)

  function DoctorUser(d: DoctorProfile): Id { d.userId }

  /** `new Doctor({userId})` with every default: General Physician, MBBS, no
      experience, not approved, no availability. */
  function NewDoctorProfile(id: Id, userId: Id, now: Time): (d: DoctorProfile)
    ensures d.id == id && d.userId == userId && d.createdAt == now
    ensures d.specialization == "General Physician" && d.qualification == "MBBS"
    ensures d.experience == 0 && !d.approvedByAdmin && d.availability == []
  {
    DoctorProfile(id, userId, "General Physician", "MBBS", 0, false, [], now)
  }

  // ------------------------------------------------------------- Patient.js

  datatype Gender = Male | Female | Other

  /** An uploaded document's metadata: `title` and `url` are optional paths,
      `date` defaults to the upload time. */
  datatype Document = Document(id: Id, title: Option<string>, url: Option<string>, date: Time)

  function DocumentId(d: Document): Id { d.id }

  datatype PatientProfile = PatientProfile(
    id: Id, userId: Id, dob: Option<Time>, gender: Option<Gender>, bloodGroup: Option<string>,
    address: Option<string>, emergencyContact: Option<string>, documents: seq<Document>,
    createdAt: Time)

  function PatientUser(p: PatientProfile): Id { p.userId }

  /** `new Patient({userId, gender})`: the optional paths unset and no documents. */
  function NewPatientProfile(id: Id, userId: Id, gender: Option<Gender>, now: Time): (p: PatientProfile)
    ensures p.id == id && p.userId == userId && p.gender == gender && p.createdAt == now
    ensures p.dob.None? && p.bloodGroup.None? && p.address.None? && p.emergencyContact.None?
    ensures p.documents == []
  {
    PatientProfile(id, userId, None, gender, None, None, None, [], now)
  }

  // --------------------------------------------------------------- Admin.js

  datatype AdminProfile = AdminProfile(
    id: Id, userId: Id, department: string, permissions: seq<string>, createdAt: Time)

  function AdminUser(a: AdminProfile): Id { a.userId }

  const DefaultPermissions := ["MANAGE_USERS", "VIEW_APPOINTMENTS", "VIEW_AUDIT_LOGS"]

  /** `new Admin({userId})` with every default: the Operations department
      and the three standard permissions. */
  function NewAdminProfile(id: Id, userId: Id, now: Time): (a: AdminProfile)
    ensures a.id == id && a.userId == userId && a.createdAt == now
    ensures a.department == "Operations"
    ensures |a.permissions| == 3 && a.permissions[0] == "MANAGE_USERS" &&
            a.permissions[1] == "VIEW_APPOINTMENTS" && a.permissions[2] == "VIEW_AUDIT_LOGS"
  {
    AdminProfile(id, userId, "Operations", DefaultPermissions, now)
  }

  // ------------------------------------------------------------ AuditLog.js

  datatype AuditEntry = AuditEntry(
    id: Id, userId: Id, action: string, targetId: Option<Id>, ipAddress: string, timestamp: Time)

  function AuditTime(e: AuditEntry): Time { e.timestamp }

  const DefaultIp := "127.0.0.1"

  /** `new AuditLog({...}).save()`: rejected without an action; a missing
      address defaults to 127.0.0.1 (a given one, even empty, is kept) and the
      timestamp to the creation time. */
  function MakeAuditEntry(id: Id, userId: Id, action: string, targetId: Option<Id>,
                          ip: Option<string>, now: Time): (r: Option<AuditEntry>)
    ensures r.Some? <==> action != ""
    ensures r.Some? ==> r.value.userId == userId && r.value.action == action &&
                        r.value.targetId == targetId && r.value.timestamp == now && r.value.id == id
    ensures r.Some? && ip.Some? ==> r.value.ipAddress == ip.value
    ensures r.Some? && ip.None? ==> r.value.ipAddress == DefaultIp
  {
    if action == "" then None
    else Some(AuditEntry(id, userId, action, targetId, if ip.Some? then ip.value else DefaultIp, now))
  }

  // ----------------------------------------------------------- Notification

  /** The severity tag of a notification. */
  datatype Severity = Info | Warning | Critical

  /** What a notification says; the wording and date rendering are not modelled. */
  datatype Message =
    | NewRequest(reason: string, date: Time, timeSlot: string)
    | RequestSent(doctorName: string, date: Time)
    | NewBooking(patientName: string, doctorName: string)
    | StatusUpdated(status: string)
    | RemindPatient(doctorName: string, date: Time, timeSlot: string)
    | RemindDoctor(patientName: string, date: Time, timeSlot: string)

  datatype Notification = Notification(userId: Id, message: Message, kind: Severity)
}
