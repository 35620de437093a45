/** The rotation schedule of one address slot and the incidents it follows. One call is one
    transaction; an incident's `updatedAt` is the version of its row. */
module RotationSchedule {
  import opened Wrappers

  /** Row ids, in the order in which the database compares them. */
  type Id = nat

  datatype Status = Active | Paused | Exhausted | Complete
  datatype Trigger = Health | Manual | Scheduled

  /** `source` is the schedule revision and due time that a scheduled incident answers to. */
  datatype Incident = Incident(
    id: Id, trigger: Trigger, source: Option<(int, int)>, status: Status, terminated: bool,
    createdAt: int, completedAt: Option<int>, updatedAt: int, errorCode: Option<string>)

  datatype Schedule = Schedule(
    enabled: bool, intervalMinutes: int, revision: int, nextRunAt: Option<int>, active: Option<Id>,
    lastStartedAt: Option<int>, lastCompletedAt: Option<int>,
    handledId: Option<Id>, handledAt: Option<int>, pausedReason: Option<string>, updatedAt: int)

  datatype Input = Input(enabled: bool, intervalMinutes: int, revision: int)

  datatype Fault =
    | NotFound | RevisionConflict | Disabled | NotPaused | IsPaused | AlreadyActive | NotDue | ActiveConflict
    | Prerequisite(code: string)

  const DEFAULT_INTERVAL := 1440

  function Deadline(now: int, intervalMinutes: int): int {
    now + intervalMinutes * 60000
  }

  /** An empty reason counts as none. */
  predicate Halted(s: Schedule) {
    s.pausedReason.Some? && s.pausedReason.value != ""
  }

  // ---------------------------------------------------------------- queries

  /** The ids are a primary key, and at most one incident of the slot is open. */
  predicate TableOk(rows: seq<Incident>) {
    && (forall i, j :: 0 <= i < j < |rows| ==> rows[i].id != rows[j].id)
    && (forall i, j :: 0 <= i < j < |rows| ==> rows[i].status.Complete? || rows[j].status.Complete?)
  }

  function IndexOf(rows: seq<Incident>, id: Id): (k: nat)
    ensures k <= |rows| && (forall i :: 0 <= i < k ==> rows[i].id != id)
    ensures k < |rows| ==> rows[k].id == id
  {
    if rows == [] || rows[0].id == id then 0 else 1 + IndexOf(rows[1..], id)
  }

  function OpenIndex(rows: seq<Incident>): (k: nat)
    ensures k <= |rows| && (forall i :: 0 <= i < k ==> rows[i].status.Complete?)
    ensures k < |rows| ==> !rows[k].status.Complete?
  {
    if rows == [] || !rows[0].status.Complete? then 0 else 1 + OpenIndex(rows[1..])
  }

  predicate Completed(incident: Incident) {
    incident.status.Complete? && incident.completedAt.Some?
  }

  predicate Later(a: Incident, b: Incident)
    requires Completed(a) && Completed(b)
  {
    || a.completedAt.value > b.completedAt.value
    || (a.completedAt == b.completedAt && (a.createdAt > b.createdAt || (a.createdAt == b.createdAt && a.id > b.id)))
  }

  /** The latest completion among the first `n` rows. */
  function LatestTo(rows: seq<Incident>, n: nat): (k: Option<nat>)
    requires n <= |rows|
    ensures k.Some? ==> k.value < n && Completed(rows[k.value])
    ensures k.Some? ==> forall i :: 0 <= i < n && Completed(rows[i]) ==> !Later(rows[i], rows[k.value])
    ensures k.None? ==> forall i :: 0 <= i < n ==> !Completed(rows[i])
  {
    if n == 0 then None
    else
      var best := LatestTo(rows, n - 1);
      if Completed(rows[n - 1]) && (best.None? || Later(rows[n - 1], rows[best.value])) then Some(n - 1) else best
  }

  function Latest(rows: seq<Incident>): Option<Incident> {
    var k := LatestTo(rows, |rows|);
    if k.Some? then Some(rows[k.value]) else None
  }

  function Linked(s: Schedule, rows: seq<Incident>): Option<Incident> {
    if s.active.Some? && IndexOf(rows, s.active.value) < |rows| then Some(rows[IndexOf(rows, s.active.value)]) else None
  }

  function Open(rows: seq<Incident>): Option<Incident> {
    if OpenIndex(rows) < |rows| then Some(rows[OpenIndex(rows)]) else None
  }

  /** The incident a pass looks at: the linked one, else the open one, else the latest completion. */
  function Selected(s: Schedule, rows: seq<Incident>): Option<Incident> {
    if s.active.Some? then Linked(s, rows)
    else if Open(rows).Some? then Open(rows)
    else Latest(rows)
  }

  predicate Handled(s: Schedule, incident: Incident) {
    s.handledId == Some(incident.id) && s.handledAt == Some(incident.updatedAt)
  }

  predicate Stopped(incident: Incident) {
    incident.terminated || incident.status.Paused? || incident.status.Exhausted?
  }

  function ReasonOf(incident: Incident): string {
    incident.errorCode.GetOr(
      if incident.terminated then "manual_terminated"
      else if incident.status.Paused? then "rotation_paused"
      else "rotation_exhausted")
  }

  // ---------------------------------------------------------------- transactions

  function Reconciled(s: Schedule, rows: seq<Incident>, now: int): Schedule {
    match Selected(s, rows)
    case None => s
    case Some(incident) =>
      if incident.status.Complete? && s.active.None? && s.handledId == Some(incident.id) then s
      else if Stopped(incident) then
        if Handled(s, incident) then
          if !incident.status.Complete? || s.active.None? then s else s.(active := None, updatedAt := now)
        else
          s.(active := if incident.status.Complete? then None else Some(incident.id),
             handledId := Some(incident.id), handledAt := Some(incident.updatedAt),
             pausedReason := Some(s.pausedReason.GetOr(ReasonOf(incident))), nextRunAt := None, updatedAt := now)
      else if Completed(incident) then
        s.(active := None, lastCompletedAt := incident.completedAt,
           handledId := Some(incident.id), handledAt := Some(incident.updatedAt),
           nextRunAt := if s.enabled && !Halted(s) then Some(Deadline(incident.completedAt.value, s.intervalMinutes))
               else None,
           updatedAt := now)
      else if s.active.None? then s.(active := Some(incident.id), lastStartedAt := Some(incident.createdAt),
          updatedAt := now)
      else s
  }

  /** The new row; unchanged settings leave the row as it is, even an absent one. */
  function Updated(
    before: Option<Schedule>, rows: seq<Incident>, input: Input, now: int): Result<Option<Schedule>, Fault>
  {
    var prior := before.GetOr(Schedule(false, DEFAULT_INTERVAL, 0, None, None, None, None, None, None, None, 0));
    if prior.revision != input.revision then Err(RevisionConflict)
    else if prior.enabled == input.enabled && prior.intervalMinutes == input.intervalMinutes then Ok(before)
    else
      var linked, latest := Linked(prior, rows), Latest(rows);
      var active := if linked.Some? && linked.value.status.Complete? && !linked.value.terminated then None
          else prior.active;
      var baseline := active.None? && latest.Some?;
      Ok(Some(prior.(
        enabled := input.enabled, intervalMinutes := input.intervalMinutes, revision := prior.revision + 1,
            active := active,
        nextRunAt := if input.enabled then Some(Deadline(now, input.intervalMinutes)) else None,
        handledId := if baseline then Some(latest.value.id) else prior.handledId,
        handledAt := if baseline then Some(latest.value.updatedAt) else prior.handledAt,
        lastCompletedAt := if latest.Some? then latest.value.completedAt else prior.lastCompletedAt,
        updatedAt := now)))
  }

  function Resumed(before: Option<Schedule>, rows: seq<Incident>, revision: int, now: int): Result<Schedule, Fault> {
    if before.None? then Err(NotFound)
    else
      var s := before.value;
      if s.revision != revision then Err(RevisionConflict)
      else if !s.enabled then Err(Disabled)
      else if !Halted(s) then Err(NotPaused)
      else
        var linked, latest := Linked(s, rows), Latest(rows);
        var active := if linked.Some? && linked.value.status.Complete? then None else s.active;
        var observed := if active.Some? then active else if latest.Some? then Some(latest.value.id) else None;
        Ok(s.(
          revision := s.revision + 1, active := active, nextRunAt := Some(Deadline(now, s.intervalMinutes)),
          lastCompletedAt := if latest.Some? then latest.value.completedAt else s.lastCompletedAt,
          handledId := if observed.Some? then observed else s.handledId,
          handledAt := if observed.Some? then VersionOf(rows, observed.value) else s.handledAt,
          pausedReason := None, updatedAt := now))
  }

  function VersionOf(rows: seq<Incident>, id: Id): Option<int> {
    if IndexOf(rows, id) < |rows| then Some(rows[IndexOf(rows, id)].updatedAt) else None
  }

  /** The scheduled incident already answering to `source`, if any. */
  function SourceIndex(rows: seq<Incident>, source: (int, int)): (k: nat)
    ensures k <= |rows| && (forall i :: 0 <= i < k ==> rows[i].source != Some(source))
    ensures k < |rows| ==> rows[k].source == Some(source)
  {
    if rows == [] || rows[0].source == Some(source) then 0 else 1 + SourceIndex(rows[1..], source)
  }

  datatype Admission = Admission(schedule: Schedule, rows: seq<Incident>)

  /** Starts the due incident: an open scheduled one or one already made for this due time is
      adopted, otherwise a row is inserted. */
  function Admitted(
    before: Option<Schedule>, rows: seq<Incident>, now: int, newId: Id,
    prerequisite: Option<string>, authorization: Option<string>): Result<Admission, Fault>
  {
    if before.None? then Err(NotFound)
    else
      var s := before.value;
      if !s.enabled then Err(Disabled)
      else if Halted(s) then Err(IsPaused)
      else if s.active.Some? then Err(AlreadyActive)
      else if s.nextRunAt.None? || s.nextRunAt.value > now then Err(NotDue)
      else if prerequisite.Some? then Err(Prerequisite(prerequisite.value))
      else
        var source := (s.revision, s.nextRunAt.value);
        var k := SourceIndex(rows, source);
        var found := if Open(rows).Some? then Open(rows) else if k < |rows| then Some(rows[k]) else None;
        if found.Some? then
          if !found.value.trigger.Scheduled? then Err(ActiveConflict)
          else Ok(Admission(Begun(s, found.value.id, found.value.createdAt), rows))
        else if authorization.Some? then Err(Prerequisite(authorization.value))
        else
          Ok(Admission(Begun(s, newId, now),
                       rows + [Incident(newId, Scheduled, Some(source), Active, false, now, None, now, None)]))
  }

  function Begun(s: Schedule, id: Id, at: int): Schedule {
    s.(active := Some(id), nextRunAt := None, lastStartedAt := Some(at), updatedAt := at)
  }

  // ---------------------------------------------------------------- the tables

  /** The schedule row of the slot and its incident table. */
  class Store {
    var schedule: Option<Schedule>
    var incidents: seq<Incident>

    constructor ()
      ensures schedule == None && incidents == []
    {
      schedule, incidents := None, [];
    }

    method FindIncident(id: Id) returns (found: Option<Incident>)
      ensures found == if IndexOf(incidents, id) < |incidents| then Some(incidents[IndexOf(incidents, id)]) else None
    {
      found := None;
      for i := 0 to |incidents|
        invariant found == None && forall k :: 0 <= k < i ==> incidents[k].id != id
      {
        if incidents[i].id == id {
          return Some(incidents[i]);
        }
      }
    }

    method FindOpen() returns (found: Option<Incident>)
      ensures found == Open(incidents)
    {
      found := None;
      for i := 0 to |incidents|
        invariant found == None && forall k :: 0 <= k < i ==> incidents[k].status.Complete?
      {
        if !incidents[i].status.Complete? {
          return Some(incidents[i]);
        }
      }
    }

    method LatestCompletion() returns (found: Option<Incident>)
      ensures found == Latest(incidents)
    {
      found := None;
      for i := 0 to |incidents|
        invariant found == var k := LatestTo(incidents, i); if k.Some? then Some(incidents[k.value]) else None
      {
        var row := incidents[i];
        if Completed(row) && (found.None? || Later(row, found.value)) {
          found := Some(row);
        }
      }
    }

    method FindSource(source: (int, int)) returns (found: Option<Incident>)
      ensures found == var k := SourceIndex(incidents, source); if k < |incidents| then Some(incidents[k]) else None
    {
      found := None;
      for i := 0 to |incidents|
        invariant found == None && forall k :: 0 <= k < i ==> incidents[k].source != Some(source)
      {
        if incidents[i].source == Some(source) {
          return Some(incidents[i]);
        }
      }
    }

    method Reconcile(now: int)
      modifies this`schedule
      ensures old(schedule).None? ==> schedule == None
      ensures old(schedule).Some? ==> schedule == Some(Reconciled(old(schedule).value, incidents, now))
    {
      if schedule.None? {
        return;
      }
      var s, row := schedule.value, None;
      if s.active.Some? {
        row := FindIncident(s.active.value);
      } else {
        row := FindOpen();
        if row.None? {
          row := LatestCompletion();
        }
      }
      if row.None? {
        return;
      }
      var incident := row.value;
      if incident.status.Complete? && s.active.None? && s.handledId == Some(incident.id) {
        return;
      }
      if Stopped(incident) {
        if Handled(s, incident) {
          if incident.status.Complete? && s.active.Some? {
            schedule := Some(s.(active := None, updatedAt := now));
          }
          return;
        }
        var reason := s.pausedReason.GetOr(ReasonOf(incident));
        s := s.(active := if incident.status.Complete? then None else Some(incident.id), nextRunAt := None);
        s := s.(handledId := Some(incident.id), handledAt := Some(incident.updatedAt));
        schedule := Some(s.(pausedReason := Some(reason), updatedAt := now));
        return;
      }
      if Completed(incident) {
        var next := if s.enabled && !Halted(s) then Some(Deadline(incident.completedAt.value, s.intervalMinutes))
            else None;
        s := s.(active := None, lastCompletedAt := incident.completedAt, nextRunAt := next);
        schedule := Some(s.(handledId := Some(incident.id), handledAt := Some(incident.updatedAt), updatedAt := now));
        return;
      }
      if s.active.None? {
        schedule := Some(s.(active := Some(incident.id), lastStartedAt := Some(incident.createdAt), updatedAt := now));
      }
    }

    method UpdateConfiguration(input: Input, now: int) returns (fault: Option<Fault>)
      modifies this`schedule
      ensures match Updated(old(schedule), incidents, input, now)
              case Err(e) => fault == Some(e) && schedule == old(schedule)
              case Ok(row) => fault == None && schedule == row
    {
      var s := schedule.GetOr(Schedule(false, DEFAULT_INTERVAL, 0, None, None, None, None, None, None, None, 0));
      if s.revision != input.revision {
        return Some(RevisionConflict);
      }
      if s.enabled == input.enabled && s.intervalMinutes == input.intervalMinutes {
        return None;
      }
      var linked := None;
      if s.active.Some? {
        linked := FindIncident(s.active.value);
      }
      var latest := LatestCompletion();
      if linked.Some? && linked.value.status.Complete? && !linked.value.terminated {
        s := s.(active := None);
      }
      if s.active.None? && latest.Some? {
        s := s.(handledId := Some(latest.value.id), handledAt := Some(latest.value.updatedAt));
      }
      if latest.Some? {
        s := s.(lastCompletedAt := latest.value.completedAt);
      }
      var next := if input.enabled then Some(Deadline(now, input.intervalMinutes)) else None;
      s := s.(enabled := input.enabled, intervalMinutes := input.intervalMinutes, revision := s.revision + 1);
      schedule := Some(s.(nextRunAt := next, updatedAt := now));
      return None;
    }

    method Resume(revision: int, now: int) returns (fault: Option<Fault>)
      modifies this`schedule
      ensures match Resumed(old(schedule), incidents, revision, now)
              case Err(e) => fault == Some(e) && schedule == old(schedule)
              case Ok(row) => fault == None && schedule == Some(row)
    {
      if schedule.None? {
        return Some(NotFound);
      }
      var s := schedule.value;
      if s.revision != revision {
        return Some(RevisionConflict);
      }
      if !s.enabled {
        return Some(Disabled);
      }
      if !Halted(s) {
        return Some(NotPaused);
      }
      var linked := None;
      if s.active.Some? {
        linked := FindIncident(s.active.value);
      }
      var latest := LatestCompletion();
      if linked.Some? && linked.value.status.Complete? {
        s := s.(active := None);
      }
      if latest.Some? {
        s := s.(lastCompletedAt := latest.value.completedAt);
      }
      if s.active.Some? || latest.Some? {
        var id := if s.active.Some? then s.active.value else latest.value.id;
        var observed := FindIncident(id);
        s := s.(handledId := Some(id), handledAt := if observed.Some? then Some(observed.value.updatedAt) else None);
      }
      s := s.(revision := s.revision + 1, nextRunAt := Some(Deadline(now, s.intervalMinutes)));
      schedule := Some(s.(pausedReason := None, updatedAt := now));
      return None;
    }

    method CreateScheduled(now: int, newId: Id, prerequisite: Option<string>, authorization: Option<string>)
      returns (fault: Option<Fault>)
      modifies this
      ensures match Admitted(old(schedule), old(incidents), now, newId, prerequisite, authorization)
              case Err(e) => fault == Some(e) && schedule == old(schedule) && incidents == old(incidents)
              case Ok(admission) => fault == None && schedule == Some(admission.schedule) && incidents == admission.rows
    {
      if schedule.None? {
        return Some(NotFound);
      }
      var s := schedule.value;
      if !s.enabled {
        return Some(Disabled);
      }
      if Halted(s) {
        return Some(IsPaused);
      }
      if s.active.Some? {
        return Some(AlreadyActive);
      }
      if s.nextRunAt.None? || s.nextRunAt.value > now {
        return Some(NotDue);
      }
      if prerequisite.Some? {
        return Some(Prerequisite(prerequisite.value));
      }
      var source := (s.revision, s.nextRunAt.value);
      var found := FindOpen();
      if found.None? {
        found := FindSource(source);
      }
      var id, startedAt := newId, now;
      if found.Some? {
        if !found.value.trigger.Scheduled? {
          return Some(ActiveConflict);
        }
        id, startedAt := found.value.id, found.value.createdAt;
      } else {
        if authorization.Some? {
          return Some(Prerequisite(authorization.value));
        }
        incidents := incidents + [Incident(newId, Scheduled, Some(source), Active, false, now, None, now, None)];
      }
      schedule := Some(s.(active := Some(id), nextRunAt := None, lastStartedAt := Some(startedAt),
          updatedAt := startedAt));
      return None;
    }
  }
}
