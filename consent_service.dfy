/**
 * `ConsentService`: one consent per patient and doctor, created "pending".
 * Setting the status to "granted" stamps `granted_at` and clears
 * `revoked_at`; setting it to "revoked" stamps `revoked_at`; any other status
 * leaves both stamps as they were.
 */
module ConsentService {
  import opened Wrappers
  import opened Database

  datatype ConsentCreate = ConsentCreate(patientId: Id, doctorId: Id)

  datatype ConsentUpdate = ConsentUpdate(accessStatus: Option<string>)

  const ConsentNotFound: HttpError := HttpError(404, "Consent not found")
  const ConsentExists: HttpError := HttpError(400, "Consent already exists")
  const DeletedMessage: string := "Consent deleted successfully"
  const Pending: string := "pending"
  const Granted: string := "granted"
  const Revoked: string := "revoked"

  /** The consents for the pair a request names. */
  function PairOf(t: Tables, data: ConsentCreate): set<Id> {
    ConsentRows(t.consents, data.patientId, data.doctorId)
  }

  function NewConsent(t: Tables, data: ConsentCreate): Consent {
    Consent(t.nextId, data.patientId, data.doctorId, Pending, None, None)
  }

  function Added(t: Tables, data: ConsentCreate): Tables {
    t.(consents := t.consents[t.nextId := NewConsent(t, data)], nextId := t.nextId + 1)
  }

  /** `create_consent`. */
  function Create(t: Tables, data: ConsentCreate): Step<Consent> {
    if data.patientId !in t.patients then Step(Err(PatientNotFound), t)
    else if data.doctorId !in t.doctors then Step(Err(DoctorNotFound), t)
    else if PairOf(t, data) != {} then Step(Err(ConsentExists), t)
    else Step(Ok(NewConsent(t, data)), Added(t, data))
  }

  /** The status change of `update_consent` at time `now`. */
  function ApplyStatus(c: Consent, status: Option<string>, now: int): (r: Consent)
    ensures r.id == c.id && r.patientId == c.patientId && r.doctorId == c.doctorId
    ensures r.accessStatus == status.GetOr(c.accessStatus)
    ensures status == Some(Granted) ==> r.grantedAt == Some(now) && r.revokedAt == None
    ensures status == Some(Revoked) ==> r.grantedAt == c.grantedAt && r.revokedAt == Some(now)
    ensures status != Some(Granted) && status != Some(Revoked) ==> r.grantedAt == c.grantedAt && r.revokedAt == c.revokedAt
  {
    match status
    case None => c
    case Some(s) =>
      var r := c.(accessStatus := s);
      if s == Granted then r.(grantedAt := Some(now), revokedAt := None)
      else if s == Revoked then r.(revokedAt := Some(now))
      else r
  }

  /** `update_consent`. */
  function Update(t: Tables, id: Id, upd: ConsentUpdate, now: int): Step<Consent> {
    if id !in t.consents then Step(Err(ConsentNotFound), t)
    else
      var row := ApplyStatus(t.consents[id], upd.accessStatus, now);
      Step(Ok(row), t.(consents := t.consents[id := row]))
  }

  /** `delete_consent`. */
  function Delete(t: Tables, id: Id): Step<string> {
    if id !in t.consents then Step(Err(ConsentNotFound), t)
    else Step(Ok(DeletedMessage), t.(consents := t.consents - {id}))
  }

  /** `get_consent_by_id`. */
  method GetConsentById(db: Db, id: Id) returns (r: Option<Consent>)
    requires db.Valid()
    ensures r.Some? <==> id in db.consents
    ensures r.Some? ==> r.value == db.consents[id]
  {
    var byId := (row: Consent) => row.id == id;
    assert MatchingKeys(db.consents, byId, db.consents.Keys) == if id in db.consents then {id} else {};
    r := ScalarOneOrNone(db.consents, byId);
  }

  /** `get_consents_by_patient`: the patient's consents, each once. */
  method GetConsentsByPatient(db: Db, patientId: Id) returns (rows: seq<Consent>)
    ensures forall x :: x in rows <==> x in db.consents.Values && x.patientId == patientId
    ensures |rows| == |set k | k in db.consents && db.consents[k].patientId == patientId|
  {
    var ofPatient := (row: Consent) => row.patientId == patientId;
    rows := Select(db.consents, ofPatient);
    assert MatchingKeys(db.consents, ofPatient, db.consents.Keys) ==
           set k | k in db.consents && db.consents[k].patientId == patientId;
  }

  /** `get_consents_by_doctor`: the doctor's consents, each once. */
  method GetConsentsByDoctor(db: Db, doctorId: Id) returns (rows: seq<Consent>)
    ensures forall x :: x in rows <==> x in db.consents.Values && x.doctorId == doctorId
    ensures |rows| == |set k | k in db.consents && db.consents[k].doctorId == doctorId|
  {
    var ofDoctor := (row: Consent) => row.doctorId == doctorId;
    rows := Select(db.consents, ofDoctor);
    assert MatchingKeys(db.consents, ofDoctor, db.consents.Keys) ==
           set k | k in db.consents && db.consents[k].doctorId == doctorId;
  }

  /** `create_consent`, performed on `db`. */
  method CreateConsent(db: Db, data: ConsentCreate) returns (r: Result<Consent>)
    requires db.Valid()
    modifies db
    ensures Step(r, db.Snapshot()) == Create(old(db.Snapshot()), data)
    ensures db.Valid()
  {
    ghost var t := db.Snapshot();
    CreateKeepsValid(t, data);
    if data.patientId !in db.patients {
      return Err(PatientNotFound);
    }
    if data.doctorId !in db.doctors {
      return Err(DoctorNotFound);
    }
    var samePair := (row: Consent) => row.patientId == data.patientId && row.doctorId == data.doctorId;
    assert MatchingKeys(db.consents, samePair, db.consents.Keys) == PairOf(t, data);
    PairHasAtMostOneRow(t, data.doctorId, data.patientId);
    var existing := ScalarOneOrNone(db.consents, samePair);
    if existing.Some? {
      return Err(ConsentExists);
    }
    var id := db.FreshId();
    var row := Consent(id, data.patientId, data.doctorId, Pending, None, None);
    db.consents := db.consents[id := row];
    r := Ok(row);
  }

  /** `update_consent`, performed on `db` at time `now`. */
  method UpdateConsent(db: Db, id: Id, upd: ConsentUpdate, now: int) returns (r: Result<Consent>)
    requires db.Valid()
    modifies db
    ensures Step(r, db.Snapshot()) == Update(old(db.Snapshot()), id, upd, now)
    ensures db.Valid()
  {
    UpdateKeepsValid(db.Snapshot(), id, upd, now);
    var found := GetConsentById(db, id);
    if found.None? {
      return Err(ConsentNotFound);
    }
    var row := found.value;
    if upd.accessStatus.Some? {
      row := row.(accessStatus := upd.accessStatus.value);
      if upd.accessStatus.value == Granted {
        row := row.(grantedAt := Some(now), revokedAt := None);
      } else if upd.accessStatus.value == Revoked {
        row := row.(revokedAt := Some(now));
      }
    }
    db.consents := db.consents[id := row];
    r := Ok(row);
  }

  /** `delete_consent`, performed on `db`. */
  method DeleteConsent(db: Db, id: Id) returns (r: Result<string>)
    requires db.Valid()
    modifies db
    ensures Step(r, db.Snapshot()) == Delete(old(db.Snapshot()), id)
    ensures db.Valid()
  {
    DeleteKeepsValid(db.Snapshot(), id);
    var found := GetConsentById(db, id);
    if found.None? {
      return Err(ConsentNotFound);
    }
    db.consents := db.consents - {id};
    r := Ok(DeletedMessage);
  }

  /** The checks run in order: patient, doctor, then any consent for the pair; an error changes nothing. */
  lemma CreateChecksInOrder(t: Tables, data: ConsentCreate)
    ensures Create(t, data).result == Err(PatientNotFound) <==> data.patientId !in t.patients
    ensures Create(t, data).result == Err(DoctorNotFound) <==>
            data.patientId in t.patients && data.doctorId !in t.doctors
    ensures Create(t, data).result == Err(ConsentExists) <==>
            data.patientId in t.patients && data.doctorId in t.doctors && PairOf(t, data) != {}
    ensures Create(t, data).result.Err? ==> Create(t, data).after == t
  {
  }

  /** A new consent is pending with no stamps, and is the pair's only consent; a second create is refused. */
  lemma CreatedIsPendingAndOnly(t: Tables, data: ConsentCreate, again: ConsentCreate)
    requires ConsentsKeyed(t)
    requires Create(t, data).result.Ok?
    requires again.patientId == data.patientId && again.doctorId == data.doctorId
    ensures var s := Create(t, data); var c := s.result.value;
      c.accessStatus == Pending && c.grantedAt == None && c.revokedAt == None &&
      PairOf(s.after, data) == {c.id} &&
      Create(s.after, again) == Step(Err(ConsentExists), s.after)
  {
    var s := Create(t, data);
    assert PairOf(s.after, data) == {t.nextId};
    assert PairOf(s.after, again) == PairOf(s.after, data);
  }

  lemma CreateKeepsValid(t: Tables, data: ConsentCreate)
    requires ValidTables(t)
    ensures ValidTables(Create(t, data).after)
  {
    if Create(t, data).result.Ok? {
      AddedKeyed(t, data);
      AddedPairsUnique(t, data);
      AddedRefs(t, data);
    }
  }

  lemma AddedKeyed(t: Tables, data: ConsentCreate)
    requires Keyed(t)
    ensures Keyed(Added(t, data))
  {
  }

  lemma AddedPairsUnique(t: Tables, data: ConsentCreate)
    requires PairsUnique(t) && ConsentsKeyed(t) && PairOf(t, data) == {}
    ensures PairsUnique(Added(t, data))
  {
    assert forall k :: k in t.consents ==> k !in PairOf(t, data);
  }

  lemma AddedRefs(t: Tables, data: ConsentCreate)
    requires RefsExist(t) && data.patientId in t.patients && data.doctorId in t.doctors
    ensures RefsExist(Added(t, data))
  {
  }

  lemma UpdateKeepsValid(t: Tables, id: Id, upd: ConsentUpdate, now: int)
    requires ValidTables(t)
    ensures ValidTables(Update(t, id, upd, now).after)
  {
    UpdateKeyed(t, id, upd, now);
    UpdatePairsUnique(t, id, upd, now);
    UpdateRefs(t, id, upd, now);
  }

  lemma UpdateKeyed(t: Tables, id: Id, upd: ConsentUpdate, now: int)
    requires Keyed(t)
    ensures Keyed(Update(t, id, upd, now).after)
  {
  }

  lemma UpdatePairsUnique(t: Tables, id: Id, upd: ConsentUpdate, now: int)
    requires PairsUnique(t)
    ensures PairsUnique(Update(t, id, upd, now).after)
  {
  }

  lemma UpdateRefs(t: Tables, id: Id, upd: ConsentUpdate, now: int)
    requires RefsExist(t)
    ensures RefsExist(Update(t, id, upd, now).after)
  {
  }

  lemma DeleteKeepsValid(t: Tables, id: Id)
    requires ValidTables(t)
    ensures ValidTables(Delete(t, id).after)
  {
    DeleteKeyed(t, id);
    DeletePairsUnique(t, id);
    DeleteRefs(t, id);
  }

  lemma DeleteKeyed(t: Tables, id: Id)
    requires Keyed(t)
    ensures Keyed(Delete(t, id).after)
  {
  }

  lemma DeletePairsUnique(t: Tables, id: Id)
    requires PairsUnique(t)
    ensures PairsUnique(Delete(t, id).after)
  {
  }

  lemma DeleteRefs(t: Tables, id: Id)
    requires RefsExist(t)
    ensures RefsExist(Delete(t, id).after)
  {
  }

  /** Granting and then revoking keeps the time of the grant and records the revocation. */
  lemma GrantThenRevoke(c: Consent, grantedAt: int, revokedAt: int)
    ensures var r := ApplyStatus(ApplyStatus(c, Some(Granted), grantedAt), Some(Revoked), revokedAt);
      r.accessStatus == Revoked && r.grantedAt == Some(grantedAt) && r.revokedAt == Some(revokedAt)
  {
  }

  /** Granting again after a revocation clears the revocation. */
  lemma RevokeThenGrant(c: Consent, revokedAt: int, grantedAt: int)
    ensures var r := ApplyStatus(ApplyStatus(c, Some(Revoked), revokedAt), Some(Granted), grantedAt);
      r.accessStatus == Granted && r.grantedAt == Some(grantedAt) && r.revokedAt == None
  {
  }

  /**
   * The stamps agree with the last grant or revocation: after a grant there
   * is no revocation stamp, and a revocation stamp once set stays until the
   * next grant.
   */
  lemma StampsFollowLastChange(c: Consent, status: Option<string>, now: int)
    requires c.accessStatus == Granted ==> c.revokedAt == None
    ensures var r := ApplyStatus(c, status, now);
      (r.accessStatus == Granted && (status == Some(Granted) || status.None?) ==> r.revokedAt == None) &&
      (c.revokedAt.Some? && status != Some(Granted) ==> r.revokedAt.Some?)
  {
  }

  /** Repeating an update with no status changes nothing; repeating a grant only moves its stamp. */
  lemma UpdateRepeat(c: Consent, now: int, later: int)
    ensures ApplyStatus(c, None, now) == c
    ensures ApplyStatus(ApplyStatus(c, Some(Granted), now), Some(Granted), later) == ApplyStatus(c, Some(Granted), later)
  {
  }

  /**
   * Deleting removes exactly that row and changes nothing else; the id is
   * then unknown, so a second delete or an update reports 404 and changes
   * nothing.
   */
  lemma DeleteThenMissing(t: Tables, id: Id, upd: ConsentUpdate, now: int)
    requires id in t.consents
    ensures var s := Delete(t, id);
      s.result == Ok(DeletedMessage) && s.after == t.(consents := t.consents - {id}) &&
      Delete(s.after, id) == Step(Err(ConsentNotFound), s.after) &&
      Update(s.after, id, upd, now) == Step(Err(ConsentNotFound), s.after)
  {
  }
}
