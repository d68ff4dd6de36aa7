/**
 * `AuditLogService`: audit entries are added with the current time and may be
 * deleted one at a time; they are looked up by id, by actor and by action.
 * `Recorded` is the entry the prescription and appointment services add when
 * they are given an actor.
 */
module AuditLogService {
  import opened Wrappers
  import opened Database

  datatype AuditLogCreate = AuditLogCreate(
    actorId: Id, action: string, targetType: string, targetId: Option<Id>, ipAddress: Option<string>)

  const AuditLogNotFound: HttpError := HttpError(404, "Audit log not found")
  const DeletedMessage: string := "Audit log deleted successfully"

  /** The entry a request adds, under the next id and stamped `now`. */
  function NewLog(t: Tables, data: AuditLogCreate, now: int): AuditLog {
    AuditLog(t.nextId, data.actorId, data.action, data.targetType, data.targetId, now, data.ipAddress)
  }

  /** The tables with that entry added. */
  function Logged(t: Tables, data: AuditLogCreate, now: int): Tables {
    t.(auditLogs := t.auditLogs[t.nextId := NewLog(t, data, now)], nextId := t.nextId + 1)
  }

  /** `create_audit_log`: it always succeeds. */
  function Create(t: Tables, data: AuditLogCreate, now: int): Step<AuditLog> {
    Step(Ok(NewLog(t, data, now)), Logged(t, data, now))
  }

  /** `delete_audit_log`. */
  function Delete(t: Tables, id: Id): Step<string> {
    if id !in t.auditLogs then Step(Err(AuditLogNotFound), t)
    else Step(Ok(DeletedMessage), t.(auditLogs := t.auditLogs - {id}))
  }

  /**
   * `if actor_id:` followed by an `AuditLog(actor_id=..., action=...,
   * target_type=..., target_id=...)`: an entry when there is an actor, none
   * otherwise (a UUID is always truthy).
   */
  function Recorded(t: Tables, actor: Option<Id>, action: string, targetType: string, targetId: Id, now: int): Tables {
    if actor.None? then t
    else Logged(t, AuditLogCreate(actor.value, action, targetType, Some(targetId), None), now)
  }

  /** `get_audit_log_by_id`. */
  method GetAuditLogById(db: Db, id: Id) returns (r: Option<AuditLog>)
    requires db.Valid()
    ensures r.Some? <==> id in db.auditLogs
    ensures r.Some? ==> r.value == db.auditLogs[id]
  {
    var byId := (row: AuditLog) => row.id == id;
    assert MatchingKeys(db.auditLogs, byId, db.auditLogs.Keys) == if id in db.auditLogs then {id} else {};
    r := ScalarOneOrNone(db.auditLogs, byId);
  }

  /** `get_audit_logs_by_actor`: every entry of the actor, once each. */
  method GetAuditLogsByActor(db: Db, actorId: Id) returns (rows: seq<AuditLog>)
    ensures forall x :: x in rows <==> x in db.auditLogs.Values && x.actorId == actorId
    ensures |rows| == |set k | k in db.auditLogs && db.auditLogs[k].actorId == actorId|
  {
    var ofActor := (row: AuditLog) => row.actorId == actorId;
    rows := Select(db.auditLogs, ofActor);
    assert MatchingKeys(db.auditLogs, ofActor, db.auditLogs.Keys) ==
           set k | k in db.auditLogs && db.auditLogs[k].actorId == actorId;
  }

  /** `get_audit_logs_by_action`: every entry with that action, once each. */
  method GetAuditLogsByAction(db: Db, action: string) returns (rows: seq<AuditLog>)
    ensures forall x :: x in rows <==> x in db.auditLogs.Values && x.action == action
    ensures |rows| == |set k | k in db.auditLogs && db.auditLogs[k].action == action|
  {
    var withAction := (row: AuditLog) => row.action == action;
    rows := Select(db.auditLogs, withAction);
    assert MatchingKeys(db.auditLogs, withAction, db.auditLogs.Keys) ==
           set k | k in db.auditLogs && db.auditLogs[k].action == action;
  }

  /** `create_audit_log`, performed on `db`. */
  method CreateAuditLog(db: Db, data: AuditLogCreate, now: int) returns (r: Result<AuditLog>)
    requires db.Valid()
    modifies db
    ensures Step(r, db.Snapshot()) == Create(old(db.Snapshot()), data, now)
    ensures db.Valid()
  {
    LoggedKeepsValid(db.Snapshot(), data, now);
    var id := db.FreshId();
    var entry := AuditLog(id, data.actorId, data.action, data.targetType, data.targetId, now, data.ipAddress);
    db.auditLogs := db.auditLogs[id := entry];
    r := Ok(entry);
  }

  /** The audit step of a service call, performed on `db`. */
  method Record(db: Db, actor: Option<Id>, action: string, targetType: string, targetId: Id, now: int)
    modifies db
    ensures db.Snapshot() == Recorded(old(db.Snapshot()), actor, action, targetType, targetId, now)
  {
    if actor.Some? {
      var id := db.FreshId();
      db.auditLogs := db.auditLogs[id := AuditLog(id, actor.value, action, targetType, Some(targetId), now, None)];
    }
  }

  /** `delete_audit_log`, performed on `db`. */
  method DeleteAuditLog(db: Db, id: Id) returns (r: Result<string>)
    requires db.Valid()
    modifies db
    ensures Step(r, db.Snapshot()) == Delete(old(db.Snapshot()), id)
    ensures db.Valid()
  {
    DeleteKeepsValid(db.Snapshot(), id);
    var found := GetAuditLogById(db, id);
    if found.None? {
      return Err(AuditLogNotFound);
    }
    db.auditLogs := db.auditLogs - {id};
    r := Ok(DeletedMessage);
  }

  /** Adding an entry keeps every invariant; the entry gets an id no row had. */
  lemma LoggedKeepsValid(t: Tables, data: AuditLogCreate, now: int)
    requires ValidTables(t)
    ensures ValidTables(Logged(t, data, now))
    ensures t.nextId !in t.auditLogs
  {
    LoggedKeyed(t, data, now);
  }

  lemma LoggedKeyed(t: Tables, data: AuditLogCreate, now: int)
    requires Keyed(t)
    ensures Keyed(Logged(t, data, now))
  {
  }

  lemma RecordedKeepsValid(t: Tables, actor: Option<Id>, action: string, targetType: string, targetId: Id, now: int)
    requires ValidTables(t)
    ensures ValidTables(Recorded(t, actor, action, targetType, targetId, now))
  {
    if actor.Some? {
      LoggedKeepsValid(t, AuditLogCreate(actor.value, action, targetType, Some(targetId), None), now);
    }
  }

  /**
   * With an actor, exactly one entry is added, naming the actor, the action
   * and the target, and no earlier entry changes; without one, nothing
   * changes. No other table is touched.
   */
  lemma RecordedAddsOneEntryIffActor(t: Tables, actor: Option<Id>, action: string, targetType: string, targetId: Id, now: int)
    requires AuditLogsKeyed(t)
    ensures var after := Recorded(t, actor, action, targetType, targetId, now);
      after == t.(auditLogs := after.auditLogs, nextId := after.nextId) &&
      (actor.None? ==> after == t) &&
      (actor.Some? ==>
         t.nextId !in t.auditLogs &&
         after.auditLogs == t.auditLogs[t.nextId := AuditLog(t.nextId, actor.value, action, targetType, Some(targetId), now, None)] &&
         |after.auditLogs| == |t.auditLogs| + 1)
  {
  }

  lemma DeleteKeepsValid(t: Tables, id: Id)
    requires ValidTables(t)
    ensures ValidTables(Delete(t, id).after)
  {
    DeleteKeyed(t, id);
  }

  lemma DeleteKeyed(t: Tables, id: Id)
    requires Keyed(t)
    ensures Keyed(Delete(t, id).after)
  {
  }

  /** A created entry can be deleted once; the second delete reports it missing. */
  lemma CreateThenDelete(t: Tables, data: AuditLogCreate, now: int)
    requires AuditLogsKeyed(t)
    ensures var s := Create(t, data, now);
      var d := Delete(s.after, s.result.value.id);
      d.result == Ok(DeletedMessage) &&
      d.after.auditLogs == t.auditLogs &&
      Delete(d.after, s.result.value.id) == Step(Err(AuditLogNotFound), d.after)
  {
    var s := Create(t, data, now);
    assert t.nextId !in t.auditLogs;
    assert s.after.auditLogs - {t.nextId} == t.auditLogs;
  }
}
