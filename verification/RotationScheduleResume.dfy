/** What an explicit resume has consumed stays consumed: no pass of any later run pauses the
    schedule again for that observation. */
module RotationScheduleResume {
  import opened Wrappers
  import opened RotationSchedule
  import opened RotationScheduleRuns

  // ---------------------------------------------------------------- incident tables

  /** A table whose complete incidents all bear a completion time. */
  predicate Sound(rows: seq<Incident>) {
    TableOk(rows) && forall i :: 0 <= i < |rows| && rows[i].status.Complete? ==> rows[i].completedAt.Some?
  }

  /** What other transactions do to the table: rows are added and move on but never disappear,
      a completion stays, and completions are recorded in the order in which they happen. */
  ghost predicate Evolves(rows: seq<Incident>, after: seq<Incident>) {
    && Sound(after) && |rows| <= |after|
    && (forall i :: 0 <= i < |rows| ==>
          && after[i].id == rows[i].id && after[i].createdAt == rows[i].createdAt && after[i].source == rows[i].source
          && (Completed(rows[i]) ==> Completed(after[i]) && after[i].completedAt == rows[i].completedAt))
    && forall i, j :: 0 <= i < |rows| && 0 <= j < |after| && Completed(rows[i]) && NewlyCompleted(rows, after, j) ==>
         Later(after[j], rows[i])
  }

  predicate NewlyCompleted(rows: seq<Incident>, after: seq<Incident>, j: nat)
    requires j < |after|
  {
    Completed(after[j]) && (j >= |rows| || !Completed(rows[j]))
  }

  /** Some completion came after that of `x`. */
  ghost predicate Overtaken(rows: seq<Incident>, x: Incident)
    requires Completed(x)
  {
    exists k :: 0 <= k < |rows| && Completed(rows[k]) && Later(rows[k], x)
  }

  /** No completion up to that of `x` answers to the schedule's revision or a later one. */
  ghost predicate PastSources(rows: seq<Incident>, x: Incident, revision: int)
    requires Completed(x)
  {
    forall k :: 0 <= k < |rows| && Completed(rows[k]) && !Later(rows[k], x) && rows[k].source.Some? ==>
      rows[k].source.value.0 < revision
  }

  /** The incident a resume consumes: the linked one while it is open, else the latest completion. */
  function Observed(s: Schedule, rows: seq<Incident>): Option<Incident> {
    if s.active.Some? && (Linked(s, rows).None? || !Linked(s, rows).value.status.Complete?) then Linked(s, rows)
    else Latest(rows)
  }

  // ---------------------------------------------------------------- the invariant

  /** The observation of `x` is consumed. While `x` is open the schedule stays linked to it in the
      handled version. Once `x` is complete, a schedule linked to nothing has handled it or a later
      completion exists, and a linked incident either is open or completed later. */
  ghost predicate Consumed(s: Schedule, rows: seq<Incident>, x: Incident) {
    && Sound(rows) && x in rows
    && if !x.status.Complete? then s.active == Some(x.id) && Handled(s, x)
       else
         && PastSources(rows, x, s.revision)
         && if s.active.None? then Handled(s, x) || Overtaken(rows, x)
            else Linked(s, rows).Some? && LaterOrOpen(Linked(s, rows).value, x)
  }

  predicate LaterOrOpen(y: Incident, x: Incident)
    requires Completed(x)
  {
    y.status.Complete? ==> Completed(y) && Later(y, x)
  }

  lemma LinkedIsIn(s: Schedule, rows: seq<Incident>, x: Incident)
    requires TableOk(rows) && x in rows && s.active == Some(x.id)
    ensures Linked(s, rows) == Some(x)
  {
    var k :| 0 <= k < |rows| && rows[k] == x;
    LinkedIs(rows, k);
  }

  /** The latest completion is `x` itself or one that overtook it. */
  lemma LatestOrOvertaken(rows: seq<Incident>, x: Incident)
    requires TableOk(rows) && x in rows && Completed(x)
    ensures Latest(rows).Some? && Completed(Latest(rows).value) && Latest(rows).value in rows
    ensures Latest(rows).value == x || Later(Latest(rows).value, x)
    ensures Latest(rows).value == x <==> !Overtaken(rows, x)
  {
    var k :| 0 <= k < |rows| && rows[k] == x;
    var latest := LatestTo(rows, |rows|).value;
    assert !Later(rows[k], rows[latest]);
    assert rows[latest].id == x.id ==> latest == k;
  }

  lemma LinkedCompletionOvertakes(s: Schedule, rows: seq<Incident>, x: Incident)
    requires Completed(x) && Linked(s, rows).Some? && Completed(Linked(s, rows).value)
        && Later(Linked(s, rows).value, x)
    ensures Overtaken(rows, x)
  {
    assert Completed(rows[IndexOf(rows, s.active.value)]);
  }

  /** A pass that looks at `x` itself finds it handled. */
  lemma ConsumedIsHandled(s: Schedule, rows: seq<Incident>, x: Incident)
    requires Consumed(s, rows, x) && Selected(s, rows) == Some(x)
    ensures Handled(s, x)
  {
    hide LatestTo, OpenIndex, IndexOf, PastSources, Overtaken;
    OpenIsOpen(rows);
    if Completed(x) {
      LatestOrOvertaken(rows, x);
    }
  }

  lemma PassKeepsConsumed(s: Schedule, rows: seq<Incident>, x: Incident, now: int)
    requires Consumed(s, rows, x)
    ensures Consumed(Reconciled(s, rows, now), rows, x)
  {
    hide LatestTo, OpenIndex, IndexOf, PastSources, Overtaken;
    if !x.status.Complete? {
      LinkedIsIn(s, rows, x);
    } else {
      LatestOrOvertaken(rows, x);
      OpenIsOpen(rows);
      if s.active.Some? && Linked(s, rows).value.status.Complete? {
        LinkedCompletionOvertakes(s, rows, x);
      } else if s.active.None? && Open(rows).Some? {
        SelectedStaysLinked(s, rows);
      }
    }
  }

  lemma UpdateKeepsConsumed(s: Schedule, rows: seq<Incident>, x: Incident, input: Input, now: int)
    requires Consumed(s, rows, x) && Updated(Some(s), rows, input, now).Ok?
    ensures var t := Updated(Some(s), rows, input, now).value; t.Some? && Consumed(t.value, rows, x)
  {
    hide LatestTo, OpenIndex, IndexOf, Overtaken;
    if !x.status.Complete? {
      LinkedIsIn(s, rows, x);
    } else {
      LatestOrOvertaken(rows, x);
      if s.active.Some? && Linked(s, rows).value.status.Complete? {
        LinkedCompletionOvertakes(s, rows, x);
      }
    }
  }

  lemma ResumeKeepsConsumed(s: Schedule, rows: seq<Incident>, x: Incident, revision: int, now: int)
    requires Consumed(s, rows, x) && Resumed(Some(s), rows, revision, now).Ok?
    ensures Consumed(Resumed(Some(s), rows, revision, now).value, rows, x)
  {
    hide LatestTo, OpenIndex, IndexOf, Overtaken;
    if !x.status.Complete? {
      LinkedIsIn(s, rows, x);
      var k :| 0 <= k < |rows| && rows[k] == x;
      LinkedIs(rows, k);
    } else {
      LatestOrOvertaken(rows, x);
      LatestVersion(rows);
      if s.active.Some? && Linked(s, rows).value.status.Complete? {
        LinkedCompletionOvertakes(s, rows, x);
      }
    }
  }

  /** An admission adopts or inserts an open incident, or adopts one that answers to the present
      revision and so completed later. */
  lemma StartKeepsConsumed(
    s: Schedule, rows: seq<Incident>, x: Incident, now: int, newId: Id, prerequisite: Option<string>,
        authorization: Option<string>)
    requires Consumed(s, rows, x) && (forall i :: 0 <= i < |rows| ==> rows[i].id != newId)
    requires Admitted(Some(s), rows, now, newId, prerequisite, authorization).Ok?
    ensures var a := Admitted(Some(s), rows, now, newId, prerequisite, authorization).value;
        Consumed(a.schedule, a.rows, x)
  {
    hide OpenIndex, IndexOf, SourceIndex, LatestTo;
    var a := Admitted(Some(s), rows, now, newId, prerequisite, authorization).value;
    var k := if Open(rows).Some? then OpenIndex(rows) else SourceIndex(rows, (s.revision, s.nextRunAt.value));
    if a.rows == rows {
      LinkedIs(rows, k);
    } else {
      assert a.rows[|rows|].id == newId;
      LinkedIs(a.rows, |rows|);
      var i :| 0 <= i < |rows| && rows[i] == x;
      assert a.rows[i] == x;
    }
  }

  lemma OvertakenStays(rows: seq<Incident>, after: seq<Incident>, x: Incident)
    requires Evolves(rows, after) && Completed(x) && Overtaken(rows, x)
    ensures Overtaken(after, x)
  {
    var k :| 0 <= k < |rows| && Completed(rows[k]) && Later(rows[k], x);
    assert Completed(after[k]) && Later(after[k], x);
  }

  lemma PastSourcesStay(rows: seq<Incident>, after: seq<Incident>, x: Incident, revision: int)
    requires Evolves(rows, after) && x in rows && Completed(x) && PastSources(rows, x, revision)
    ensures PastSources(after, x, revision)
  {
    var i :| 0 <= i < |rows| && rows[i] == x;
    forall k | 0 <= k < |after| && Completed(after[k]) && !Later(after[k], x) && after[k].source.Some?
      ensures after[k].source.value.0 < revision
    {
      assert !NewlyCompleted(rows, after, k);
      assert Completed(rows[k]) && !Later(rows[k], x);
    }
  }

  /** Where the schedule is linked, it stays linked, to a row that is open or completed later. */
  lemma LinkEvolves(s: Schedule, rows: seq<Incident>, after: seq<Incident>, x: Incident)
    requires Evolves(rows, after) && TableOk(rows) && x in rows && Completed(x)
    requires Linked(s, rows).Some? && LaterOrOpen(Linked(s, rows).value, x)
    ensures Linked(s, after).Some? && LaterOrOpen(Linked(s, after).value, x)
  {
    var i, j :| 0 <= i < |rows| && rows[i] == x && j == IndexOf(rows, s.active.value);
    LinkedIs(after, j);
    if after[j].status.Complete? && !Completed(rows[j]) {
      assert NewlyCompleted(rows, after, j);
    }
  }

  lemma IncidentsKeepConsumed(s: Schedule, rows: seq<Incident>, after: seq<Incident>, x: Incident)
    requires Consumed(s, rows, x) && Evolves(rows, after) && x in after
    ensures Consumed(s, after, x)
  {
    hide Linked, PastSources, Overtaken;
    if x.status.Complete? {
      PastSourcesStay(rows, after, x, s.revision);
      if s.active.Some? {
        LinkEvolves(s, rows, after, x);
      } else if Overtaken(rows, x) {
        OvertakenStays(rows, after, x);
      }
    }
  }

  // ---------------------------------------------------------------- main result

  /** No incident yet answers to a later revision than the schedule's own. */
  ghost predicate SourcesMade(t: Tables) {
    t.schedule.Some? ==>
      forall k :: 0 <= k < |t.rows| && t.rows[k].source.Some? ==> t.rows[k].source.value.0 <= t.schedule.value.revision
  }

  /** What the world around the schedule may do while the row of `x` stays in its version. */
  ghost predicate KeepsRow(t: Tables, e: Event, x: Incident) {
    && (e.Incidents? ==> Evolves(t.rows, e.rows) && x in e.rows)
    && (e.Start? ==> forall i :: 0 <= i < |t.rows| ==> t.rows[i].id != e.newId)
  }

  ghost predicate ConsumedIn(t: Tables, x: Incident) {
    t.schedule.Some? && Consumed(t.schedule.value, t.rows, x)
  }

  lemma ResumeConsumes(t: Tables, revision: int, now: int, x: Incident)
    requires Sound(t.rows) && SourcesMade(t) && t.schedule.Some?
    requires Resumed(t.schedule, t.rows, revision, now).Ok? && Observed(t.schedule.value, t.rows) == Some(x)
    ensures ConsumedIn(Next(t, ResumeBy(revision), now), x)
  {
    hide LatestTo, OpenIndex, IndexOf, Overtaken;
    var s := t.schedule.value;
    if s.active.Some? && Linked(s, t.rows).Some? {
      LinkedIs(t.rows, IndexOf(t.rows, s.active.value));
    }
    if Latest(t.rows).Some? {
      LatestVersion(t.rows);
    }
  }

  lemma StepKeepsConsumed(t: Tables, e: Event, now: int, x: Incident)
    requires ConsumedIn(t, x) && KeepsRow(t, e, x)
    ensures ConsumedIn(Next(t, e, now), x)
  {
    hide Consumed, Updated, Resumed, Admitted, Reconciled, Evolves;
    var s := t.schedule.value;
    match e
    case Update(input) =>
      if Updated(Some(s), t.rows, input, now).Ok? {
        UpdateKeepsConsumed(s, t.rows, x, input, now);
      }
    case Pass => PassKeepsConsumed(s, t.rows, x, now);
    case Start(newId, prerequisite, authorization) =>
      if Admitted(Some(s), t.rows, now, newId, prerequisite, authorization).Ok? {
        StartKeepsConsumed(s, t.rows, x, now, newId, prerequisite, authorization);
      }
    case Incidents(rows) => IncidentsKeepConsumed(s, t.rows, rows, x);
    case ResumeBy(revision) =>
      if Resumed(Some(s), t.rows, revision, now).Ok? {
        ResumeKeepsConsumed(s, t.rows, x, revision, now);
      }
  }

  lemma {:induction false} RunKeepsConsumed(states: seq<Tables>, events: seq<Event>, times: seq<int>, i: nat, j: nat,
      x: Incident)
    requires Run(states, events, times) && i <= j < |states| && ConsumedIn(states[i], x)
    requires forall k :: i <= k < j ==> KeepsRow(states[k], events[k], x)
    ensures ConsumedIn(states[j], x)
    decreases j
  {
    hide Consumed, KeepsRow, Next;
    if i < j {
      RunKeepsConsumed(states, events, times, i, j - 1, x);
      StepKeepsConsumed(states[j - 1], events[j - 1], times[j - 1], x);
    }
  }

  /** After a successful resume, through any run of updates, passes, admissions, further resumes
      and changes of other incidents, no pass pauses the schedule for the incident that the resume
      consumed, while that incident's row stays in the version consumed. */
  lemma ConsumedNeverPauses(states: seq<Tables>, events: seq<Event>, times: seq<int>, i: nat, j: nat, x: Incident)
    requires Run(states, events, times) && i < j < |events|
    requires Sound(states[i].rows) && SourcesMade(states[i]) && states[i].schedule.Some? && events[i].ResumeBy?
    requires Resumed(states[i].schedule, states[i].rows, events[i].revision, times[i]).Ok?
    requires Observed(states[i].schedule.value, states[i].rows) == Some(x)
    requires forall k :: i < k < j ==> KeepsRow(states[k], events[k], x)
    ensures states[j].schedule.Some?
    ensures Raises(states[j].schedule.value, states[j].rows, times[j]) ==>
              Selected(states[j].schedule.value, states[j].rows) != Some(x)
  {
    hide Consumed, KeepsRow, Next, Selected, Observed, Resumed, Sound;
    ResumeConsumes(states[i], events[i].revision, times[i], x);
    RunKeepsConsumed(states, events, times, i + 1, j, x);
    var s, rows := states[j].schedule.value, states[j].rows;
    if Raises(s, rows, times[j]) && Selected(s, rows) == Some(x) {
      ConsumedIsHandled(s, rows, x);
      RaiseIsNews(s, rows, times[j]);
      assert false;
    }
  }
}
