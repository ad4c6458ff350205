# Healthcare appointment API: a Dafny model of its core

This project models the backend of a healthcare appointment and patient-management
system. The backend is an Express/Mongoose API. The model covers:

- the appointment lifecycle: booking, the urgency classifier, the notification fan-out,
  the role-dependent listing, status updates and reminders;
- consultation records, which complete the appointment and are audited;
- the patient's document list;
- the upload file filter;
- admin moderation: statistics, user listing, the access toggle, the audit view and doctor
  approval;
- registration, login and profile update;
- the doctor directory and availability;
- the Mongoose schemas these rely on.

The database is a `Store.Db` object with one sequence per collection and an id counter.
Each route handler is a method that reads and replaces those sequences. Each method's
postcondition states the whole new state and the reply for every outcome: the error
replies, the validation failures and the success case. `Db.Valid` holds the constraints
the schemas and unique indexes keep, and every handler preserves it. The constraints are:

- user ids and e-mails are unique;
- each user has at most one profile of each kind;
- document ids within a profile are distinct;
- required paths hold values, and every audit entry has an action;
- every user, appointment and document id is below the counter. Profile, record and audit ids come from the same counter, but the invariant does not bound them.

The handlers are not transactional. Each one awaits its writes one after another. The
parameter `fault` names the write that fails: `Some(k)` fails the k-th write, counted from
0. Writes issued before it stay, the handler replies 500, and later writes never happen.
Queries with no writes are functions: the urgency classifier, listings, statistics,
login, the upload filter and the doctor directory.

Some things are parameters rather than definitions:

- the clock;
- the request's IP address and origin;
- express-validator's `isEmail`;
- bcrypt's hash and compare.

A signed JWT is represented by its payload. Notification texts are an abstract `Message`
with the values they show. Files: `base.dfy` (Option, replies, `findOne`/`find`),
`sorting.dfy` (`.sort`, `.limit`), `text.dfy` (`toLowerCase`, `includes`, decimal
rendering), `models.dfy` (schemas), `store.dfy` (database and invariants), then one file
per route module.

## Model

| member | source | states |
|---|---|---|
| Models.ParseRole | backend/models/User.js:17-21 | A role string is accepted exactly when it is one of `patient`, `doctor`, `admin`. |
| Models.RoleName | backend/models/User.js:17-21 | Every role's stored name parses back to that role. |
| Models.MakeUser | backend/models/User.js:3-37 | Saving a user succeeds iff name, e-mail, password and phone are non-empty and the role (if given) is in the enumeration. The role defaults to patient, `isActive` to true and the image to the stock avatar. The given values are stored as they are. |
| Models.ParseStatus | backend/models/Appointment.js:26-30 | A status string is accepted exactly when it is one of the five enumeration values. |
| Models.StatusName | backend/models/Appointment.js:26-30 | Every status's stored name parses back to that status. |
| Models.MakeAppointment | backend/models/Appointment.js:3-39 | Saving succeeds iff patient, doctor, date and a non-empty time slot are given and the status (if given) is in the enumeration. The reason defaults to `''`, the status to Booked, `reminded` to false and `createdAt` to the creation time. |
| Models.MakeRecord | backend/models/MedicalRecord.js:3-35 | Saving succeeds iff diagnosis, prescription and notes are all non-empty. The texts are stored exactly as given (nothing encrypts them), and `createdAt` is the creation time. |
| Models.NewDoctorProfile | backend/models/Doctor.js:3-36 | A new doctor profile has General Physician, MBBS, experience 0, is not approved and has no availability. |
| Models.NewPatientProfile | backend/models/Patient.js:3-39 | A new patient profile has only the given user and gender, no optional path set and no documents. |
| Models.NewAdminProfile | backend/models/Admin.js:3-22 | A new admin profile is in Operations with exactly MANAGE_USERS, VIEW_APPOINTMENTS and VIEW_AUDIT_LOGS. |
| Models.MakeAuditEntry | backend/models/AuditLog.js:3-25 | An entry saves iff it has an action. A given IP is stored as it is, even when empty. A missing IP defaults to 127.0.0.1. The timestamp is the creation time. |
| Text.Lower | backend/routes/appointments.js:32 | `toLowerCase` on ASCII: same length, each upper-case letter becomes its lower-case form and every other character stays, so the result holds no upper-case letter. |
| Text.Contains | backend/routes/appointments.js:34-36 | `includes` is true exactly when the word occurs at some position. |
| Text.ContainsPrefixOf | backend/routes/upload.js:28 | A string containing `a + b` contains `a`. |
| Text.DecimalRoundTrip | backend/routes/upload.js:19 | The timestamp's decimal rendering reads back as the same number. |
| Sorting.SortBy | backend/routes/appointments.js:81 | `.sort({key: 1})`: the result is in ascending key order and is a permutation of the input. |
| Sorting.SortByDesc | backend/routes/appointments.js:85 | `.sort({key: -1})`: the result is in descending key order and is a permutation of the input. |
| Sorting.Limit | backend/routes/admin.js:74-75 | `.limit(n)` after a descending sort gives min(length, n) elements, still descending and drawn from the input. Nothing left out has a larger key than anything kept. |
| Base.FindBy | backend/routes/appointments.js:101 | `findById`/`findOne` returns the first element with the key, and nothing exactly when no element has it. |
| Base.FilterBy | backend/routes/appointments.js:56 | `find({field: k})` keeps exactly the elements whose key is k, each as often as in the store. |
| Appointments.Urgency | backend/routes/appointments.js:31-38 | The classifier itself. Its contract is stated by `UrgencyRule`. |
| Appointments.UrgencyRule | backend/routes/appointments.js:31-38 | The lower-cased reason decides. It is critical iff it contains a critical word, warning iff no critical word but a warning word, and info otherwise. |
| Appointments.UrgencyIgnoresCase | backend/routes/appointments.js:32 | Lower-casing the reason first does not change its class. |
| Appointments.CriticalWins | backend/routes/appointments.js:34-37 | A reason containing `severe` is critical even if it also has warning words. |
| Appointments.FeverIsWarning | backend/routes/appointments.js:36-37 | Any reason that mentions `fever` in any letter case and has no critical word is a warning. |
| Appointments.DoctorName | backend/routes/appointments.js:41-51 | The name of a user with the doctor id, or `Unknown` when no user has that id. |
| Appointments.AdminsOf | backend/routes/appointments.js:56 | `User.find({role: 'admin'})` returns only admin-role users. |
| Appointments.AdminsOfAll | backend/routes/appointments.js:56 | Every admin-role user is in the result, as often as in the store, and nobody else is. |
| Appointments.BookingNotices | backend/routes/appointments.js:40-63 | A booking sends exactly 2 + (number of admins) notices, in order. The first goes to the doctor id with the urgency, the second to the patient, then one per admin-role user, each as info. |
| Appointments.UnknownDoctor | backend/routes/appointments.js:41-51 | With no user of that id, the doctor notice still goes to the id and the other notices name the doctor `Unknown`. |
| Appointments.SaveAppointment | backend/routes/appointments.js:26 | The appointment is appended under the fresh id, the counter advances by one, and `Valid` is kept. |
| Appointments.Book | backend/routes/appointments.js:13-69 | An appointment is saved for the caller with status Pending, or nothing changes if it is invalid. Without a reason it is kept and the reply is 500 with no notice. Otherwise the notices are appended in order, and a failing write keeps the earlier ones. `Valid` is kept. |
| Appointments.Announce | backend/routes/appointments.js:40-63 | The booking's notices, as `BookingNotices` lists them (doctor, patient, then every admin), are appended in order. When the k-th of them fails, only the k-1 before it are stored and the result is false. Only the notification store changes. |
| Appointments.Deliver | backend/routes/appointments.js:41-63 | The notices are written one at a time in order. On a failing write, exactly those before it are stored. |
| Appointments.ListFor | backend/routes/appointments.js:75-92 | A doctor gets exactly the appointments booked with them, date ascending. Anyone else gets exactly those they booked, date descending. |
| Appointments.UpdateStatus | backend/routes/appointments.js:96-127 | An unknown id gives 404 and a foreign doctor gets 401, both changing nothing. A status outside the enumeration gives 500 and changes nothing. Otherwise only that appointment's status is overwritten, with no transition check, and the patient gets one notice: info iff `Approved`, else warning. |
| Appointments.ReminderFor | backend/routes/appointments.js:140-151 | A reminder is allowed exactly for the owning doctor (it goes to the patient) or the owning patient (to the doctor), and it is info. |
| Appointments.Remind | backend/routes/appointments.js:132-168 | 404 or 401 changes nothing. Otherwise one notice is appended, then `reminded` becomes true. A failing second write leaves the notice and the flag as it was. `reminded` is never cleared. |
| MedicalRecords.CreateRecord | backend/routes/medical_records.js:16-59 | A missing appointment (404) or a caller who is not its doctor (401) changes nothing. The steps run in order: the record (patient from the appointment, doctor the caller) is stored, the appointment becomes Completed whatever its status, and one CREATE_MEDICAL_RECORD entry names the caller and the patient. A failure stops the later steps. No duplicate check. |
| MedicalRecords.MyRecords | backend/routes/medical_records.js:64-79 | Exactly the caller's records as patient, newest first. |
| MedicalRecords.Documents | backend/routes/medical_records.js:84-95 | An empty list without a profile. Otherwise the documents of a profile of the caller. |
| MedicalRecords.DocumentsOfProfile | backend/routes/medical_records.js:86-90 | With one profile per user, the list shown is that profile's. |
| MedicalRecords.RemoveById | backend/routes/medical_records.js:154 | `pull` leaves no document with the id, and is never longer than the list. |
| MedicalRecords.RemoveByIdKeeps | backend/routes/medical_records.js:154 | A document survives `pull` exactly when it was in the list and has another id. |
| MedicalRecords.RemoveSplit | backend/routes/medical_records.js:154 | `pull` works piecewise over concatenation, so the survivors keep their order. |
| MedicalRecords.RemoveAbsent | backend/routes/medical_records.js:154 | Pulling an id nobody has changes nothing. |
| MedicalRecords.RemoveExactlyOne | backend/routes/medical_records.js:146-154 | If only position j has the id, `pull` removes exactly position j. |
| MedicalRecords.UploadThenDelete | backend/routes/medical_records.js:117 | Deleting a freshly uploaded document restores the previous list. |
| MedicalRecords.UploadDocument | backend/routes/medical_records.js:100-126 | The new document (fresh id, title, url, date now) goes to index 0, with the old ones after it in order. A caller without a profile first gets one with gender Other. `Valid` is kept. |
| MedicalRecords.DeleteDocument | backend/routes/medical_records.js:131-162 | No profile or no such document gives 404 and no change. Otherwise exactly that document is removed and the others keep their order. |
| Upload.ExtName | backend/routes/upload.js:19 | `path.extname`: empty or a dot followed by no dot and no slash, and a suffix of the base name. |
| Upload.LastDotCounts | backend/routes/upload.js:19 | For a non-empty, slash-free stem (dots are allowed in it), followed by a dot and a tail with no dot and no slash, the extension is that last dot and the tail, so `a.tar.gz` gives `.gz` and `..gz` gives `.gz`. The only excluded case is the name `..` itself, which has no extension. |
| Upload.DotFileHasNoExtension | backend/routes/upload.js:31 | A base name whose only dot is its first character has no extension. |
| Upload.DirectoryPartIgnored | backend/routes/upload.js:31 | For any directory and a non-empty, slash-free name, `dir/name/` has the same extension as `name`: the directory and the trailing slash are ignored. |
| Upload.LongAlternativesRedundant | backend/routes/upload.js:28 | `docx` and `xlsx` add nothing to the alternation. |
| Upload.UnanchoredExtension | backend/routes/upload.js:28-31 | The regex is unanchored: a slash-free stem that is neither empty nor `.`, followed by `.pdf` and a tail with no dot and no slash, passes the extension test, `.pdfx` included. |
| Upload.UpperCaseExtension | backend/routes/upload.js:31 | The extension is lower-cased before the test, so a slash-free stem that is neither empty nor `.`, followed by `.JPG`, passes it. |
| Upload.ExtensionAllowed | backend/routes/upload.js:28-31 | The alternation is tested on the lower-cased extension. A name without an extension never passes. |
| Upload.MimeAllowed | backend/routes/upload.js:34-42 | Only `image/*` and `application/*` types can pass the MIME test. |
| Upload.FileFilter | backend/routes/upload.js:24-50 | Accept iff the extension test and the MIME test both pass. Otherwise the error is `Error: File type not supported! Got: ` followed by the MIME type. |
| Upload.StoredName | backend/routes/upload.js:17-20 | The stored name starts with the field name and a dash. |
| Upload.StoredNameKeepsExtension | backend/routes/upload.js:19 | The stored name has the original file's extension. |
| Upload.StoredNameKeepsTimestamp | backend/routes/upload.js:19 | The timestamp can be read back from the stored name. |
| Upload.UploadReply | backend/routes/upload.js:62-81 | Success iff a file came under `file` and passed the filter. Otherwise 400 with `No file uploaded`, `Unexpected field` or the filter's message. On success, the message is `File uploaded successfully`, the file name is `StoredName` of the field, the timestamp and the original name, and the URL is the origin plus `/uploads/` plus that name. |
| AdminRoutes.RolesPartitionUsers | backend/routes/admin.js:14-15 | Patients, doctors and admins counted by role add up to all users. |
| AdminRoutes.CountRole | backend/routes/admin.js:14-15 | `countDocuments({role})` is at most the number of users. It is 0 exactly when nobody has the role, and all users exactly when everyone has it. |
| AdminRoutes.CountRoleIsFilter | backend/routes/admin.js:14-15 | The count equals the length of `FilterBy` on the role, the listing that holds exactly the users with that role, each as often as in the store. |
| AdminRoutes.StatsOf | backend/routes/admin.js:12-27 | `patients` is the length of the patient-role listing and `doctors` that of the doctor-role listing (through `CountRoleIsFilter`). The appointment count is the total. The two user counts leave out exactly the admins. |
| AdminRoutes.ListedUsers | backend/routes/admin.js:32-39 | With a non-empty role query, exactly the users with that role. Without one, all users. Newest first. |
| AdminRoutes.UnknownRoleListsNobody | backend/routes/admin.js:36-39 | A non-empty role query outside the enumeration lists nobody. (An empty query lists everybody, as for no query.) |
| AdminRoutes.ListUsers | backend/routes/admin.js:39 | The listed users in that order, as views without a password, newest first. |
| AdminRoutes.FlipAccess | backend/routes/admin.js:57 | Only that user's `isActive` changes, and it is negated. |
| AdminRoutes.FlipTwice | backend/routes/admin.js:57 | Toggling twice restores the users. |
| AdminRoutes.ToggleAccess | backend/routes/admin.js:50-65 | An unknown user gives 404 and no change. Otherwise the users become the flipped users. `Valid` is kept. |
| AdminRoutes.AuditLogs | backend/routes/admin.js:70-81 | At most 100 entries, newest first, drawn from the log. No omitted entry is newer than a listed one. |
| AdminRoutes.Activate | backend/routes/admin.js:97 | The user with the id is active afterwards and nothing else changes. With no such user, nothing changes. |
| AdminRoutes.ActivateIdempotent | backend/routes/admin.js:93-97 | Activating twice is activating once. |
| AdminRoutes.Approve | backend/routes/admin.js:86-104 | No doctor profile gives 404 and no change. Otherwise the profile is approved, and then the user is activated. A failing second write keeps the approval. |
| Auth.RegisterErrors | backend/routes/auth.js:16-27 | There are no errors iff name, role and phone are non-empty, the e-mail is valid and the password has at least 6 characters. Each failing check contributes its own message. |
| Auth.Register | backend/routes/auth.js:14-99 | Failing checks give 400 with the messages, and a taken e-mail gives 400. Neither changes anything. Otherwise the user is stored with the hash of the password. Then exactly one profile matching the role is added. A duplicate profile or a failing write gives 500, with a body starting `Server error: `. The token carries exactly the id and role. The counter advances once per write made. |
| Auth.SaveUser | backend/routes/auth.js:51 | The user is appended under the fresh id, the counter advances by one, and `Valid` is kept. |
| Auth.CreateProfile | backend/routes/auth.js:53-75 | A patient profile with gender Other, a doctor profile with the defaults, or an admin profile with Operations and the three permissions, and only in the store for the role. |
| Auth.Login | backend/routes/auth.js:104-155 | The validation reply comes iff the e-mail is invalid or the password is missing. After that, an unknown e-mail and a wrong password give the same 400 `Invalid Credentials`. Success iff some user has the e-mail and the password matches its hash. The token carries that user's id and role. |
| Auth.RegisteredCanLogIn | backend/routes/auth.js:48-49 | A freshly registered user logs in with the same e-mail and password. |
| Auth.ApplyProfile | backend/routes/auth.js:165-166 | The image and phone are overwritten only by non-empty values. Every other path is unchanged, and the user stays valid. |
| Auth.ApplyProfileIdempotent | backend/routes/auth.js:165-166 | Applying the same update twice is applying it once. |
| Auth.UpdateProfile | backend/routes/auth.js:160-174 | The caller's user record becomes `ApplyProfile` of itself. A missing record gives 500 and no change. |
| Doctors.Directory | backend/routes/doctors.js:10-28 | One entry per profile, in order. The id, name and e-mail come from the linked user, the specialization, experience and availability from the profile. A dangling profile gives 500. |
| Doctors.UpdateAvailability | backend/routes/doctors.js:33-55 | A non-doctor gets 403 and no profile gives 404, both changing nothing. Otherwise only the availability is replaced, as a whole. |
| Doctors.ProfileOf | backend/routes/doctors.js:60-69 | 404 without a doctor profile for the caller. Otherwise that profile, with the user's name and e-mail when the user exists. |

## Left out

- Lower-casing covers the ASCII letters only; JavaScript's full Unicode case mapping is not modelled.
- Notification wording and `toDateString` formatting are not modelled. Messages are abstract values carrying what they show.
- `populate` joins in the appointment, record and audit listings are left out. The listings return the stored documents.
- Appointments.UpdateStatus: a request without `status` is not modelled. It would unset the path, and the model takes the status as a string.
- Mongoose casting is not modelled: ids are natural numbers, so a malformed id string (a CastError and a 500 in the source) cannot occur. The shape of a submitted availability is not checked either.
- `req.ip`, the request origin, `Date.now` and the timestamp are parameters.
- Upload.ExtName: models POSIX `path.extname`. The server is taken to run on POSIX; Node's win32 variant, which also splits on `\` and drive letters, is not modelled.
- Multer's disk storage, directory creation, the 10 MB limit and requests with several file parts are left out.
- The unused base64 `encrypt`/`decrypt` helpers in backend/routes/medical_records.js are left out; nothing calls them.
- models/Notification is not part of this model. Notifications are an append-only sequence of (user id, message, type).
- middleware/auth is not part of this model. The authenticated caller is a `Caller` value. `authorize('admin')` is a precondition on the admin routes.
- express-validator's `isEmail`, bcrypt's hash and compare and JWT signing are opaque. The model assumes only that `isEmail` rejects the empty string.
- Auth.Register: the body of a 500 reply is stated only up to its `Server error: ` prefix. The rest is the text of the underlying exception.
- Auth.Login: requires unique e-mails among the users it searches, which the schema's unique index guarantees.
- Sorting keeps store order among equal keys. MongoDB leaves their order unspecified, so the contracts promise only order and permutation.
- Concurrent requests and last-write-wins races are not modelled. Each handler runs alone.
- `Db.Valid` does not tie a profile's or an appointment's user id to an existing user. The source does not enforce that either: the directory's 500 and the booking's `Unknown` doctor are exactly those cases.
- Server wiring and the seeding script are not modelled.
