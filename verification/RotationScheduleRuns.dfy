/** Reconciliation settles, pauses latch, and a consumed observation does not pause again. */
module RotationScheduleRuns {
  import opened Wrappers
  import opened RotationSchedule

  // ---------------------------------------------------------------- convergence

  lemma {:induction false} LinkedIs(rows: seq<Incident>, k: nat)
    requires TableOk(rows) && k < |rows|
    ensures IndexOf(rows, rows[k].id) == k
  {
  }

  /** Looking at the selected row again finds the same row once it is linked. */
  lemma SelectedStaysLinked(s: Schedule, rows: seq<Incident>)
    requires TableOk(rows) && Selected(s, rows).Some?
    ensures forall t: Schedule :: t.active == Some(Selected(s, rows).value.id) ==>
        Selected(t, rows) == Selected(s, rows)
  {
    hide LatestTo, IndexOf, OpenIndex;
    var k := if s.active.Some? then IndexOf(rows, s.active.value)
             else if OpenIndex(rows) < |rows| then OpenIndex(rows)
             else LatestTo(rows, |rows|).value;
    LinkedIs(rows, k);
  }

  /** After any pass: either nothing was done, or the schedule is linked to an open incident and
      settled, or it is linked to nothing and has just handled a completed incident. */
  lemma AfterOnePass(s: Schedule, rows: seq<Incident>, now: int)
    requires TableOk(rows)
    ensures var t := Reconciled(s, rows, now);
            || t == s
            || (t.active.Some? && Stable(t, rows))
            || (t.active.None? && t.handledId.Some? && Selected(s, rows).Some?
                && t.handledId.value == Selected(s, rows).value.id && Selected(s, rows).value.status.Complete?)
  {
    hide LatestTo, IndexOf, OpenIndex, Open, Linked, Latest;
    if Selected(s, rows).Some? {
      SelectedStaysLinked(s, rows);
    }
  }

  /** No further pass changes the schedule, at whatever time it runs. */
  ghost predicate Stable(s: Schedule, rows: seq<Incident>) {
    forall now: int :: Reconciled(s, rows, now) == s
  }

  /** A pass from a state linked to nothing leaves a settled schedule. */
  lemma UnlinkedSettles(s: Schedule, rows: seq<Incident>, now: int)
    requires TableOk(rows) && s.active.None?
    ensures Stable(Reconciled(s, rows, now), rows)
  {
    hide LatestTo, IndexOf, OpenIndex;
    if Selected(s, rows).Some? {
      SelectedStaysLinked(s, rows);
    }
  }

  /** With the incidents unchanged, at most two passes change the schedule: the third, and every
      later one, is a no-op. */
  lemma ReconcileConverges(s: Schedule, rows: seq<Incident>, first: int, second: int)
    requires TableOk(rows)
    ensures Stable(Reconciled(Reconciled(s, rows, first), rows, second), rows)
  {
    hide LatestTo, IndexOf, OpenIndex;
    AfterOnePass(s, rows, first);
    var t := Reconciled(s, rows, first);
    if t == s {
      if s.active.None? {
        UnlinkedSettles(s, rows, first);
      }
    } else if t.active.None? {
      UnlinkedSettles(t, rows, second);
    }
  }

  /** The bound is tight: a linked success is consumed, then an open incident is linked. */
  lemma TwoPassesMayBeNeeded()
    ensures exists s: Schedule, rows: seq<Incident> ::
              TableOk(rows) && !Stable(s, rows) && !Stable(Reconciled(s, rows, 0), rows)
  {
    var done := Incident(1, Scheduled, None, Complete, false, 0, Some(10), 10, None);
    var next := Incident(2, Manual, None, Active, false, 20, None, 20, None);
    var s := Schedule(true, 60, 1, None, Some(1), None, None, None, None, None, 0);
    var rows := [done, next];
    assert IndexOf(rows, 1) == 0;
    assert OpenIndex(rows) == 1 by {
      assert rows[1..][0] == next;
    }
    var t := Reconciled(s, rows, 0);
    assert t.active == None && Reconciled(t, rows, 0).active == Some(2);
    assert TableOk(rows) && !Stable(s, rows) && !Stable(t, rows);
  }

  /** A run of passes, at any times. */
  function Passes(s: Schedule, rows: seq<Incident>, times: seq<int>): Schedule
    decreases |times|
  {
    if times == [] then s else Passes(Reconciled(s, rows, times[0]), rows, times[1..])
  }

  lemma {:induction false} StablePasses(s: Schedule, rows: seq<Incident>, times: seq<int>)
    requires Stable(s, rows)
    ensures Passes(s, rows, times) == s
    decreases |times|
  {
    if times != [] {
      StablePasses(s, rows, times[1..]);
    }
  }

  /** A changed configuration takes past completions as its baseline: with nothing linked and
      nothing open, no pass acts on them. */
  lemma UpdateConsumesHistory(before: Option<Schedule>, rows: seq<Incident>, input: Input, now: int)
    requires Updated(before, rows, input, now).Ok? && Updated(before, rows, input, now).value != before
    requires var after := Updated(before, rows, input, now).value;
             after.Some? && after.value.active.None? && Open(rows).None?
    ensures Stable(Updated(before, rows, input, now).value.value, rows)
  {
    hide LatestTo, OpenIndex, IndexOf;
    OpenIsOpen(rows);
  }

  // ---------------------------------------------------------------- resume

  /** What raises a pause. */
  ghost predicate Raises(s: Schedule, rows: seq<Incident>, now: int) {
    s.pausedReason.None? && Reconciled(s, rows, now).pausedReason.Some?
  }

  /** A pass raises a pause exactly when the incident it looks at has stopped in a version not
      yet handled, and it handles that version with it. */
  lemma RaiseIsNews(s: Schedule, rows: seq<Incident>, now: int)
    requires s.pausedReason.None?
    ensures Raises(s, rows, now) <==>
              && Selected(s, rows).Some? && Stopped(Selected(s, rows).value) && !Handled(s, Selected(s, rows).value)
              && !(s.active.None? && Selected(s, rows).value.status.Complete?
                  && s.handledId == Some(Selected(s, rows).value.id))
    ensures Raises(s, rows, now) ==> Handled(Reconciled(s, rows, now), Selected(s, rows).value)
  {
    hide Selected;
  }

  /** Another incident than the one just consumed stands open and stopped. */
  ghost predicate AnotherStopped(s: Schedule, rows: seq<Incident>) {
    s.active.None? && Open(rows).Some? && Stopped(Open(rows).value) && !Handled(s, Open(rows).value)
  }

  lemma OpenIsOpen(rows: seq<Incident>)
    ensures Open(rows).Some? ==> !Open(rows).value.status.Complete?
    ensures Latest(rows).Some? ==> Completed(Latest(rows).value)
  {
  }

  lemma {:induction false} LatestVersion(rows: seq<Incident>)
    requires TableOk(rows) && Latest(rows).Some?
    ensures VersionOf(rows, Latest(rows).value.id) == Some(Latest(rows).value.updatedAt)
  {
    LinkedIs(rows, LatestTo(rows, |rows|).value);
  }

  /** After a resume the schedule is paused again, by any number of passes over the same
      incidents, exactly when nothing is linked and another open incident has stopped; and then
      by that incident, never by the observation the resume consumed. */
  lemma {:induction false} ResumedPauseReturnsExactly(s: Schedule, rows: seq<Incident>, revision: int, at: int,
      times: seq<int>)
    requires TableOk(rows) && Resumed(Some(s), rows, revision, at).Ok? && |times| > 0
    ensures var r := Resumed(Some(s), rows, revision, at).value; var after := Passes(r, rows, times);
            && (after.pausedReason.Some? <==> AnotherStopped(r, rows))
            && (AnotherStopped(r, rows) ==>
                  after.pausedReason == Some(ReasonOf(Open(rows).value)) && Handled(after, Open(rows).value)
                  && (r.handledId, r.handledAt) != (after.handledId, after.handledAt))
  {
    hide LatestTo, OpenIndex, Passes;
    var r := Resumed(Some(s), rows, revision, at).value;
    var first := Reconciled(r, rows, times[0]);
    OpenIsOpen(rows);
    if Latest(rows).Some? {
      LatestVersion(rows);
    }
    assert first.pausedReason.Some? <==> AnotherStopped(r, rows);
    assert Stable(first, rows) by {
      if r.active.None? {
        UnlinkedSettles(r, rows, times[0]);
      }
    }
    StablePasses(first, rows, times[1..]);
    PassesFirst(r, rows, times);
  }

  lemma {:induction false} PassesFirst(s: Schedule, rows: seq<Incident>, times: seq<int>)
    requires |times| > 0
    ensures Passes(s, rows, times) == Passes(Reconciled(s, rows, times[0]), rows, times[1..])
  {
  }

  // ---------------------------------------------------------------- latching

  datatype Event =
    | Update(input: Input)
    | Pass
    | Start(newId: Id, prerequisite: Option<string>, authorization: Option<string>)
    | Incidents(rows: seq<Incident>)
    | ResumeBy(revision: int)

  datatype Tables = Tables(schedule: Option<Schedule>, rows: seq<Incident>)

  /** One transaction at `now`; a refused one changes nothing. */
  function Next(t: Tables, e: Event, now: int): Tables {
    match e
    case Update(input) =>
      var row := Updated(t.schedule, t.rows, input, now);
      if row.Ok? then t.(schedule := row.value) else t
    case Pass => if t.schedule.None? then t else t.(schedule := Some(Reconciled(t.schedule.value, t.rows, now)))
    case Start(newId, prerequisite, authorization) =>
      var admission := Admitted(t.schedule, t.rows, now, newId, prerequisite, authorization);
      if admission.Ok? then Tables(Some(admission.value.schedule), admission.value.rows) else t
    case Incidents(rows) => t.(rows := rows)
    case ResumeBy(revision) =>
      var row := Resumed(t.schedule, t.rows, revision, now);
      if row.Ok? then t.(schedule := Some(row.value)) else t
  }

  ghost predicate Run(states: seq<Tables>, events: seq<Event>, times: seq<int>) {
    && |states| == |events| + 1 && |times| == |events|
    && forall i :: 0 <= i < |events| ==> states[i + 1] == Next(states[i], events[i], times[i])
  }

  predicate PausedFor(t: Tables, reason: string) {
    t.schedule.Some? && Halted(t.schedule.value) && t.schedule.value.pausedReason == Some(reason)
  }

  lemma PauseSurvives(t: Tables, e: Event, now: int, reason: string)
    requires PausedFor(t, reason) && !e.ResumeBy?
    ensures PausedFor(Next(t, e, now), reason)
    ensures e.Start? ==> Next(t, e, now) == t
  {
    hide Selected, Linked, Latest, Open, SourceIndex;
  }

  /** Once paused, a schedule stays paused for the same reason under any updates, passes and
      changes of incidents, and starts nothing, until someone resumes it. */
  lemma {:induction false} PausesLatch(states: seq<Tables>, events: seq<Event>, times: seq<int>, i: nat, j: nat,
      reason: string)
    requires Run(states, events, times) && i <= j < |states| && PausedFor(states[i], reason)
    requires forall k :: i <= k < j ==> !events[k].ResumeBy?
    ensures PausedFor(states[j], reason)
    ensures forall k :: i <= k < j && events[k].Start? ==> states[k + 1] == states[k]
    decreases j
  {
    if i < j {
      PausesLatch(states, events, times, i, j - 1, reason);
      PauseSurvives(states[j - 1], events[j - 1], times[j - 1], reason);
    }
  }

  /** The event is a resume that names the current revision of an enabled schedule. */
  predicate Lifts(t: Tables, e: Event) {
    e.ResumeBy? && t.schedule.Some? && t.schedule.value.enabled && e.revision == t.schedule.value.revision
  }

  lemma PauseEnds(t: Tables, e: Event, now: int, reason: string)
    requires PausedFor(t, reason)
    ensures !PausedFor(Next(t, e, now), reason) <==> Lifts(t, e)
  {
    if !e.ResumeBy? {
      PauseSurvives(t, e, now, reason);
    }
  }

  /** Over any run a pause lasts exactly until the first resume that names the revision then current
      of a schedule then enabled; no other event, and no other resume, ends it. */
  lemma {:induction false} PauseEndsByResume(
    states: seq<Tables>, events: seq<Event>, times: seq<int>, i: nat, j: nat, reason: string)
    requires Run(states, events, times) && i <= j < |states| && PausedFor(states[i], reason)
    ensures (forall k :: i <= k <= j ==> PausedFor(states[k], reason)) <==>
              forall k :: i <= k < j ==> !Lifts(states[k], events[k])
    decreases j
  {
    hide PausedFor, Next, Lifts;
    if i < j {
      PauseEndsByResume(states, events, times, i, j - 1, reason);
      assert states[j - 1 + 1] == Next(states[j - 1], events[j - 1], times[j - 1]);
      if PausedFor(states[j - 1], reason) {
        PauseEnds(states[j - 1], events[j - 1], times[j - 1], reason);
      }
    }
  }

  /** Admission never opens a second incident beside an open one. */
  lemma AdmissionKeepsTable(
    before: Option<Schedule>, rows: seq<Incident>, now: int, newId: Id, prerequisite: Option<string>,
        authorization: Option<string>)
    requires TableOk(rows) && (forall i :: 0 <= i < |rows| ==> rows[i].id != newId)
    requires Admitted(before, rows, now, newId, prerequisite, authorization).Ok?
    ensures var a := Admitted(before, rows, now, newId, prerequisite, authorization).value;
            TableOk(a.rows) && a.schedule.active.Some? && (Open(rows).Some? ==> Linked(a.schedule, rows) == Open(rows))
  {
    if Open(rows).Some? {
      LinkedIs(rows, OpenIndex(rows));
    }
  }

  predicate IsOpen(rows: seq<Incident>, i: nat) {
    i < |rows| && !rows[i].status.Complete?
  }

  predicate AnswersTo(rows: seq<Incident>, i: nat, source: (int, int)) {
    i < |rows| && rows[i].source == Some(source)
  }

  /** The schedule is in the state of waiting for a due time that has come. */
  predicate IsDue(s: Schedule, now: int) {
    && s.enabled && !Halted(s) && s.active == None
    && s.nextRunAt.Some? && s.nextRunAt.value <= now
  }

  /** Every other case is refused. A due schedule without an open incident and without one that already
      answers to this due time gets a new one; otherwise it takes the one there is, if that is a
      scheduled one. The due time is used up either way. */
  lemma AdmittedExactly(
    s: Schedule, rows: seq<Incident>, now: int, newId: Id, prerequisite: Option<string>, authorization: Option<string>)
    requires TableOk(rows)
    ensures var result := Admitted(Some(s), rows, now, newId, prerequisite, authorization);
            && (result.Ok? ==> IsDue(s, now) && prerequisite.None?)
            && (IsDue(s, now) && prerequisite.None? ==>
                  var source := (s.revision, s.nextRunAt.value);
                  && ((forall i: nat :: !IsOpen(rows, i) && !AnswersTo(rows, i, source)) ==>
                        if authorization.Some? then result == Err(Prerequisite(authorization.value))
                        else result == Ok(Admission(
                                     s.(active := Some(newId), nextRunAt := None, lastStartedAt := Some(now),
                                        updatedAt := now),
                                     rows + [Incident(newId, Scheduled, Some(source), Active, false, now, None, now,
                                                      None)])))
                  && (forall i: nat :: IsOpen(rows, i) ==> Takes(s, rows, i, result))
                  && ((forall i: nat :: !IsOpen(rows, i)) && (exists i: nat :: AnswersTo(rows, i, source)) ==>
                        exists i: nat :: AnswersTo(rows, i, source) && Takes(s, rows, i, result)))
            && (!s.enabled ==> result == Err(Disabled))
            && (s.enabled && Halted(s) ==> result == Err(IsPaused))
            && (s.enabled && !Halted(s) && s.active.Some? ==> result == Err(AlreadyActive))
            && (Startable(s) && !IsDue(s, now) ==> result == Err(NotDue))
            && (IsDue(s, now) && prerequisite.Some? ==> result == Err(Prerequisite(prerequisite.value)))
  {
    var k := OpenIndex(rows);
    forall i: nat | IsOpen(rows, i) ensures i == k {
    }
    assert k < |rows| ==> IsOpen(rows, k);
    if s.nextRunAt.Some? {
      var source := (s.revision, s.nextRunAt.value);
      var m := SourceIndex(rows, source);
      assert m < |rows| ==> AnswersTo(rows, m, source);
    }
  }

  /** The present incident is linked, unless it is of another kind. */
  predicate Takes(s: Schedule, rows: seq<Incident>, i: nat, result: Result<Admission, Fault>)
    requires i < |rows|
  {
    if rows[i].trigger != Scheduled then result == Err(ActiveConflict)
    else result == Ok(Admission(s.(active := Some(rows[i].id), nextRunAt := None,
                                   lastStartedAt := Some(rows[i].createdAt), updatedAt := rows[i].createdAt), rows))
  }

  /** No due time of no revision is ever answered twice. */
  predicate SourcesDiffer(rows: seq<Incident>) {
    forall i, j :: 0 <= i < j < |rows| && rows[i].source.Some? ==> rows[i].source != rows[j].source
  }

  lemma NoDueTimeTwice(
    s: Schedule, rows: seq<Incident>, now: int, newId: Id, prerequisite: Option<string>, authorization: Option<string>)
    requires SourcesDiffer(rows)
    requires Admitted(Some(s), rows, now, newId, prerequisite, authorization).Ok?
    ensures var a := Admitted(Some(s), rows, now, newId, prerequisite, authorization).value;
            && SourcesDiffer(a.rows) && rows <= a.rows && |a.rows| <= |rows| + 1
            && !IsDue(a.schedule, now)
  {
    var source := (s.revision, s.nextRunAt.value);
    var m := SourceIndex(rows, source);
  }

  // ---------------------------------------------------------------- cadence

  /** The slot may start its next incident, once it is due. */
  predicate Startable(s: Schedule) {
    s.enabled && !Halted(s) && s.active.None?
  }

  /** An answer that does not depend on the clock any more. */
  ghost predicate DueFrom(s: Schedule, rows: seq<Incident>, newId: Id, due: int) {
    forall t: int, prerequisite: Option<string>, authorization: Option<string> ::
      Admitted(Some(s), rows, t, newId, prerequisite, authorization) == Err(NotDue) <==> t < due
  }

  /** A finished rotation is followed by the next one exactly one interval after its completion, as
      soon as a pass has looked at it; a pause or a switched-off schedule has no next run. */
  lemma CompletionSetsTheNextRun(s: Schedule, rows: seq<Incident>, now: int, newId: Id)
    requires var seen := Selected(s, rows);
             && seen.Some? && seen.value.status.Complete? && seen.value.completedAt.Some?
             && !seen.value.terminated && (s.active.Some? || s.handledId != Some(seen.value.id))
    ensures var after, seen := Reconciled(s, rows, now), Selected(s, rows).value;
            && after.active == None && after.lastCompletedAt == seen.completedAt && Handled(after, seen)
            && after.pausedReason == s.pausedReason && after.enabled == s.enabled
            && (Startable(after) <==> after.nextRunAt.Some?)
            && (Startable(after) ==>
                  && after.nextRunAt == Some(seen.completedAt.value + 60000 * s.intervalMinutes)
                  && DueFrom(after, rows, newId, seen.completedAt.value + 60000 * s.intervalMinutes))
  {
  }

  /** The linked incident is over and was not cut short. */
  predicate Completes(rows: seq<Incident>, linked: Option<Id>) {
    exists i :: 0 <= i < |rows| && linked == Some(rows[i].id) && rows[i].status.Complete? && !rows[i].terminated
  }

  /** Changed settings and a resume count a fresh interval from the call. */
  lemma SettingsSetTheNextRun(before: Option<Schedule>, rows: seq<Incident>, input: Input, now: int, newId: Id)
    requires Updated(before, rows, input, now).Ok?
    requires Updated(before, rows, input, now).value != before
    ensures var after := Updated(before, rows, input, now).value;
            && after.Some? && after.value.enabled == input.enabled
            && after.value.intervalMinutes == input.intervalMinutes
            && (after.value.nextRunAt.Some? <==> input.enabled)
            && (input.enabled ==> after.value.nextRunAt == Some(now + 60000 * input.intervalMinutes))
            && (Startable(after.value) ==> DueFrom(after.value, rows, newId, now + 60000 * input.intervalMinutes))
            && (before.Some? ==>
                  && after.value.revision == input.revision + 1 == before.value.revision + 1
                  && after.value.pausedReason == before.value.pausedReason
                  && (after.value.active == before.value.active
                      || (after.value.active == None && Completes(rows, before.value.active)))
                  && (TableOk(rows) ==> !Completes(rows, after.value.active)))
            && (Latest(rows).Some? ==> after.value.lastCompletedAt == Latest(rows).value.completedAt)
  {
    if before.Some? && before.value.active.Some? {
      var k := IndexOf(rows, before.value.active.value);
      if k < |rows| {
        assert rows[k].id == before.value.active.value;
      }
    }
  }

  lemma ResumeSetsTheNextRun(before: Option<Schedule>, rows: seq<Incident>, revision: int, now: int, newId: Id)
    requires Resumed(before, rows, revision, now).Ok?
    ensures var after := Resumed(before, rows, revision, now).value;
            && after.enabled && after.pausedReason == None
            && after.nextRunAt == Some(now + 60000 * before.value.intervalMinutes)
            && (after.active.None? ==> DueFrom(after, rows, newId, now + 60000 * before.value.intervalMinutes))
            && after.revision == revision + 1
            && (Latest(rows).Some? ==> after.lastCompletedAt == Latest(rows).value.completedAt)
  {
  }

  /** A halted rotation stops the schedule: nothing is due until it is resumed or set anew. */
  lemma HaltClearsTheNextRun(s: Schedule, rows: seq<Incident>, now: int)
    requires var seen := Selected(s, rows);
             && seen.Some? && !Handled(s, seen.value)
             && (seen.value.terminated || seen.value.status.Paused? || seen.value.status.Exhausted?)
             && !(seen.value.status.Complete? && s.active.None? && s.handledId == Some(seen.value.id))
    ensures var after, seen := Reconciled(s, rows, now), Selected(s, rows).value;
            && after.nextRunAt == None && Handled(after, seen) && after.pausedReason.Some?
            && (s.pausedReason.Some? ==> after.pausedReason == s.pausedReason)
            && (s.pausedReason.None? && seen.errorCode.Some? ==> after.pausedReason == seen.errorCode)
            && (after.active.Some? <==> !seen.status.Complete?)
            && (s.pausedReason.None? && seen.errorCode.None? ==>
                  after.pausedReason == Some(if seen.terminated then "manual_terminated"
                                             else if seen.status.Paused? then "rotation_paused"
                                             else "rotation_exhausted"))
  {
  }

  /** A rotation under way that the schedule does not know yet is taken as its own; otherwise a pass
      over running rotations changes nothing. */
  lemma RunningIsLinked(s: Schedule, rows: seq<Incident>, now: int)
    requires var seen := Selected(s, rows); seen.Some? && seen.value.status.Active? && !seen.value.terminated
    ensures var after, seen := Reconciled(s, rows, now), Selected(s, rows).value;
            && (s.active.Some? ==> after == s)
            && (s.active.None? ==>
                  && after.active == Some(seen.id) && after.lastStartedAt == Some(seen.createdAt)
                  && after.nextRunAt == s.nextRunAt && after.pausedReason == s.pausedReason
                  && after.handledId == s.handledId && after.revision == s.revision)
  {
  }
}
