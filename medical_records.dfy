/** backend/routes/medical_records.js: a doctor's consultation record (which
    also completes the appointment and leaves an audit entry), the patient's
    record history, and the patient's document list (read, upload, delete). */
module MedicalRecords {
  import opened Base
  import opened Sorting
  import opened Models
  import opened Store

  const CreateRecordAction := "CREATE_MEDICAL_RECORD"

  // --------------------------------------------------------- record creation

  /** The body of POST /medical-records; a field the client left out is None. */
  datatype RecordRequest = RecordRequest(
    appointmentId: Id, diagnosis: Option<string>, prescription: Option<string>, notes: Option<string>)

  /** POST /medical-records: only the doctor of the appointment may add a
      record. The record takes the patient from the appointment and the doctor
      from the caller; then the appointment becomes Completed, whatever its
      status was; then one audit entry names the caller and the patient. The
      three writes are not one transaction: a failing write ends the handler
      with 500 and keeps the writes before it. Nothing prevents a second record
      for the same appointment. */
  method CreateRecord(db: Db, caller: Caller, req: RecordRequest, ip: Option<string>, now: Time,
                      fault: Option<nat>) returns (r: Reply<MedicalRecord>)
    requires db.Valid()
    modifies db`records, db`appointments, db`audit, db`nextId
    ensures db.Valid()
    ensures var i := FindBy(old(db.appointments), AppointmentId, req.appointmentId);
      if i.None? then
        r == Fail(404, "Appointment not found") && unchanged(db)
      else
        var a := old(db.appointments)[i.value];
        var made := MakeRecord(old(db.nextId), a.patientId, caller.id, req.appointmentId,
                               req.diagnosis, req.prescription, req.notes, now);
        if a.doctorId != caller.id then
          r == Fail(401, "Not authorized") && unchanged(db)
        else if made.None? || FailsAt(fault, 0) then
          r == Fail(500, ServerError) && unchanged(db)
        else
          && db.records == old(db.records) + [made.value]
          && if FailsAt(fault, 1) then
               r == Fail(500, ServerError) && db.nextId == old(db.nextId) + 1 &&
               db.appointments == old(db.appointments) && db.audit == old(db.audit)
             else
               && db.appointments == old(db.appointments)[i.value := a.(status := Completed)]
               && if FailsAt(fault, 2) then
                    r == Fail(500, ServerError) && db.nextId == old(db.nextId) + 1 &&
                    db.audit == old(db.audit)
                  else
                    r == Ok(made.value) && db.nextId == old(db.nextId) + 2 &&
                    db.audit == old(db.audit) +
                      [AuditEntry(old(db.nextId) + 1, caller.id, CreateRecordAction, Some(a.patientId),
                                  if ip.Some? then ip.value else DefaultIp, now)]
  {
    var i := FindBy(db.appointments, AppointmentId, req.appointmentId);
    if i.None? {
      return Fail(404, "Appointment not found");
    }
    var a := db.appointments[i.value];
    if a.doctorId != caller.id {
      return Fail(401, "Not authorized");
    }
    var made := MakeRecord(db.nextId, a.patientId, caller.id, req.appointmentId,
                           req.diagnosis, req.prescription, req.notes, now);
    if made.None? || FailsAt(fault, 0) {
      return Fail(500, ServerError);
    }
    var _ := NewId(db);
    db.records := db.records + [made.value];
    assert db.Valid();
    if FailsAt(fault, 1) {
      return Fail(500, ServerError);
    }
    AppointmentsOkSet(db.appointments, db.nextId, i.value, a.(status := Completed));
    db.appointments := db.appointments[i.value := a.(status := Completed)];
    assert db.Valid();
    if FailsAt(fault, 2) {
      return Fail(500, ServerError);
    }
    var auditId := NewId(db);
    var entry := MakeAuditEntry(auditId, caller.id, CreateRecordAction, Some(a.patientId), ip, now);
    db.audit := db.audit + [entry.value];
    return Ok(made.value);
  }

  // ---------------------------------------------------------- record history

  /** GET /medical-records/my-records: exactly the caller's records as the
      patient, newest first. */
  function MyRecords(caller: Caller, records: seq<MedicalRecord>): (r: seq<MedicalRecord>)
    ensures Descending(r, RecordCreatedAt)
    ensures forall m :: multiset(r)[m] == if m.patientId == caller.id then multiset(records)[m] else 0
  {
    SortByDesc(FilterBy(records, RecordPatient, caller.id), RecordCreatedAt)
  }

  // ---------------------------------------------------------------- documents

  /** GET /medical-records/documents: the caller's profile's documents, or
      none when the caller has no patient profile. */
  function Documents(caller: Caller, patients: seq<PatientProfile>): (r: seq<Document>)
    ensures (forall k :: 0 <= k < |patients| ==> patients[k].userId != caller.id) ==> r == []
    ensures (exists k :: 0 <= k < |patients| && patients[k].userId == caller.id) ==>
      exists k :: 0 <= k < |patients| && patients[k].userId == caller.id &&
                  r == patients[k].documents
  {
    match FindBy(patients, PatientUser, caller.id)
    case None => []
    case Some(i) => patients[i].documents
  }

  /** With at most one profile per user, the documents shown are that
      profile's. */
  lemma DocumentsOfProfile(caller: Caller, patients: seq<PatientProfile>, k: nat)
    requires UniqueBy(patients, PatientUser)
    requires k < |patients| && patients[k].userId == caller.id
    ensures Documents(caller, patients) == patients[k].documents
  {
  }

  /** `documents.pull({_id: id})`: every document with that id removed, the
      others kept in order. */
  function RemoveById(docs: seq<Document>, id: Id): (r: seq<Document>)
    ensures |r| <= |docs|
    ensures forall k :: 0 <= k < |r| ==> r[k].id != id
  {
    if docs == [] then []
    else
      (if docs[0].id == id then [] else [docs[0]]) + RemoveById(docs[1..], id)
  }

  /** `pull` keeps exactly the documents without the id. */
  lemma {:induction false} RemoveByIdKeeps(docs: seq<Document>, id: Id)
    ensures forall d :: d in RemoveById(docs, id) <==> d in docs && d.id != id
  {
    if docs != [] {
      RemoveByIdKeeps(docs[1..], id);
      assert docs == [docs[0]] + docs[1..];
    }
  }

  /** Removal works piecewise, so the survivors keep their order. */
  lemma {:induction false} RemoveSplit(a: seq<Document>, b: seq<Document>, id: Id)
    ensures RemoveById(a + b, id) == RemoveById(a, id) + RemoveById(b, id)
  {
    if a == [] {
      assert a + b == b;
    } else {
      assert (a + b)[0] == a[0];
      assert (a + b)[1..] == a[1..] + b;
      RemoveSplit(a[1..], b, id);
    }
  }

  /** Removing an id nobody has changes nothing. */
  lemma {:induction false} RemoveAbsent(docs: seq<Document>, id: Id)
    requires forall k :: 0 <= k < |docs| ==> docs[k].id != id
    ensures RemoveById(docs, id) == docs
  {
    if docs != [] {
      RemoveAbsent(docs[1..], id);
    }
  }

  /** When only position `j` has the id, removing the id removes exactly that
      one document and keeps the others in order. */
  lemma RemoveExactlyOne(docs: seq<Document>, id: Id, j: nat)
    requires j < |docs| && docs[j].id == id
    requires forall k :: 0 <= k < |docs| && k != j ==> docs[k].id != id
    ensures RemoveById(docs, id) == docs[..j] + docs[j + 1..]
  {
    var before, after := docs[..j], docs[j + 1..];
    var rest := [docs[j]] + after;
    assert docs == before + rest;
    RemoveSplit(before, rest, id);
    RemoveAbsent(before, id);
    assert rest[1..] == after;
    RemoveAbsent(after, id);
    assert RemoveById(rest, id) == after;
  }

  /** With distinct ids, no other position holds the id of position `j`. */
  lemma OnlyAt(docs: seq<Document>, bound: nat, j: nat)
    requires DocumentsOk(docs, bound) && j < |docs|
    ensures forall k :: 0 <= k < |docs| && k != j ==> docs[k].id != docs[j].id
  {
    forall k | 0 <= k < |docs| && k != j
      ensures docs[k].id != docs[j].id
    {
      assert DocumentId(docs[k]) != DocumentId(docs[j]);
    }
  }

  /** Taking one document out keeps the ids distinct and handed out. */
  lemma DocumentsOkWithout(docs: seq<Document>, bound: nat, j: nat)
    requires DocumentsOk(docs, bound) && j < |docs|
    ensures DocumentsOk(docs[..j] + docs[j + 1..], bound)
  {
    var rest := docs[..j] + docs[j + 1..];
    assert forall k :: 0 <= k < |rest| ==> rest[k] == docs[if k < j then k else k + 1];
  }

  /** Deleting a freshly uploaded document gives the list back as it was. */
  lemma UploadThenDelete(doc: Document, docs: seq<Document>)
    requires forall k :: 0 <= k < |docs| ==> docs[k].id != doc.id
    ensures RemoveById([doc] + docs, doc.id) == docs
  {
    RemoveSplit([doc], docs, doc.id);
    RemoveAbsent(docs, doc.id);
  }

  /** The body of POST /medical-records/upload. */
  datatype DocumentRequest = DocumentRequest(title: Option<string>, url: Option<string>)

  /** POST /medical-records/upload: the new document goes to the front of the
      caller's list, the older ones follow in order. A caller without a
      patient profile first gets one, with gender Other and no documents. */
  method UploadDocument(db: Db, caller: Caller, req: DocumentRequest, now: Time, fault: Option<nat>)
    returns (r: Reply<seq<Document>>)
    requires db.Valid()
    modifies db`patients, db`nextId
    ensures db.Valid()
    ensures var i := FindBy(old(db.patients), PatientUser, caller.id);
      if FailsAt(fault, 0) then
        r == Fail(500, ServerError) && unchanged(db)
      else if i.None? then
        var doc := Document(old(db.nextId) + 1, req.title, req.url, now);
        var profile := NewPatientProfile(old(db.nextId), caller.id, Some(Other), now);
        && db.patients == old(db.patients) + [profile.(documents := [doc])]
        && db.nextId == old(db.nextId) + 2
        && r == Ok([doc])
      else
        var doc := Document(old(db.nextId), req.title, req.url, now);
        var p := old(db.patients)[i.value];
        && db.patients == old(db.patients)[i.value := p.(documents := [doc] + p.documents)]
        && db.nextId == old(db.nextId) + 1
        && r == Ok([doc] + p.documents)
  {
    var i := FindBy(db.patients, PatientUser, caller.id);
    if FailsAt(fault, 0) {
      return Fail(500, ServerError);
    }
    ghost var bound := db.nextId;
    if i.None? {
      var profileId := NewId(db);
      var docId := NewId(db);
      var doc := Document(docId, req.title, req.url, now);
      var profile := NewPatientProfile(profileId, caller.id, Some(Other), now).(documents := [doc]);
      AppendUnique(db.patients, PatientUser, profile);
      db.patients := db.patients + [profile];
      r := Ok([doc]);
    } else {
      var docId := NewId(db);
      var doc := Document(docId, req.title, req.url, now);
      var p := db.patients[i.value];
      var docs := [doc] + p.documents;
      assert DocumentsOk(p.documents, bound);
      assert DocumentsOk(docs, db.nextId);
      db.patients := db.patients[i.value := p.(documents := docs)];
      r := Ok(docs);
    }
  }

  /** DELETE /medical-records/documents/:id: 404 without a profile or without
      a document of that id; otherwise exactly that document leaves the list
      and the others keep their order. */
  method DeleteDocument(db: Db, caller: Caller, docId: Id, fault: Option<nat>)
    returns (r: Reply<seq<Document>>)
    requires db.Valid()
    modifies db`patients
    ensures db.Valid()
    ensures var i := FindBy(old(db.patients), PatientUser, caller.id);
      if i.None? then
        r == Fail(404, "Patient profile not found") && unchanged(db)
      else
        var p := old(db.patients)[i.value];
        var j := FindBy(p.documents, DocumentId, docId);
        if j.None? then
          r == Fail(404, "Document not found") && unchanged(db)
        else if FailsAt(fault, 0) then
          r == Fail(500, ServerError) && unchanged(db)
        else
          var rest := p.documents[..j.value] + p.documents[j.value + 1..];
          && db.patients == old(db.patients)[i.value := p.(documents := rest)]
          && r == Ok(rest)
  {
    var i := FindBy(db.patients, PatientUser, caller.id);
    if i.None? {
      return Fail(404, "Patient profile not found");
    }
    var p := db.patients[i.value];
    var j := FindBy(p.documents, DocumentId, docId);
    if j.None? {
      return Fail(404, "Document not found");
    }
    if FailsAt(fault, 0) {
      return Fail(500, ServerError);
    }
    assert DocumentsOk(p.documents, db.nextId);
    OnlyAt(p.documents, db.nextId, j.value);
    var rest := RemoveById(p.documents, docId);
    RemoveExactlyOne(p.documents, docId, j.value);
    DocumentsOkWithout(p.documents, db.nextId, j.value);
    PatientsOkUpdate(db.patients, db.nextId, i.value, p.(documents := rest));
    db.patients := db.patients[i.value := p.(documents := rest)];
    return Ok(rest);
  }
}
