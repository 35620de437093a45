/** A run in which a sent step is no longer observed: the late answer of an earlier call names
    another resource than the one its step was applied with. */
module RotationLateReceipt {
  import opened Wrappers
  import opened RotationMachine
  import opened RotationCoordinator
  import opened RotationObservation

  const EPOCH := Revisions(1, 1, 1)
  const GRANTED := Authorization(true, true, true, true, false, false)
  const FREE := Lease(false, 0, 0)

  function Held(revision: int): Lease {
    Lease(true, revision, revision)
  }

  /** An incident with everything granted, one attempt of budget, and this work done so far. */
  function Incident(claim: Claim, lease: Lease, used: int, work: Work, log: seq<Entry>): State {
    State(0, CloudPhase, false, Access(GRANTED, EPOCH, EPOCH, lease), claim,
          Funds(map["s" := Segment(used, 1, false)], "s", None, 0), work, Target(None, false, 1), map[],
          Vitals(Blank(1, 1), []), log)
  }

  /** A plan of two steps. */
  function Plan(charged: bool, first: Status, second: Status): Work {
    Work([Attempt("a", "s", charged, [Step("0", first), Step("1", second)])], Some(0))
  }

  lemma PlanMoves(charged: bool, first: Status, second: Status, status: Status)
    ensures WithStep(Plan(charged, first, second), 0, status) == Plan(charged, status, second)
    ensures WithStep(Plan(charged, first, second), 1, status) == Plan(charged, first, status)
    ensures SetCharge(Plan(charged, first, second), true) == Plan(true, first, second)
  {
    var work, attempt := Plan(charged, first, second), Plan(charged, first, second).attempts[0];
    assert SetStatus(attempt.steps, 0, status) == [Step("0", status), Step("1", second)];
    assert SetStatus(attempt.steps, 1, status) == [Step("0", first), Step("1", status)];
    assert forall a: Attempt :: work.attempts[0 := a] == [a];
  }

  lemma Claims(revision: int, used: int, work: Work, log: seq<Entry>)
    ensures var s := Incident(Claim(revision, true), FREE, used, work, log);
            Legal(s, ClaimLease) && Apply(s, ClaimLease) ==
                Incident(Claim(revision + 1, false), Held(revision + 1), used, work, log)
  {
  }

  lemma Releases(claim: Claim, lease: Lease, used: int, work: Work, log: seq<Entry>)
    ensures var s, e := Incident(claim, lease, used, work, log), Drift(GRANTED, EPOCH, FREE, None, false);
            Legal(s, e) && Apply(s, e) == Incident(claim, FREE, used, work, log)
  {
  }

  lemma Starts(revision: int) returns (entry: Entry)
    ensures var s, e := Incident(Claim(revision, false), Held(revision), 0, Work([], None), []),
        StartAttempt("a", ["0", "1"]);
            && Legal(s, e) && !entry.StepSent?
            && Apply(s, e) == Incident(Claim(revision, false), Held(revision), 0, Plan(false, Prepared, Prepared),
                [entry])
  {
    var s := Incident(Claim(revision, false), Held(revision), 0, Work([], None), []);
    entry := AttemptPrepared(SnapshotOf(s), 0, 0);
    PrepareExactly(SnapshotOf(s), 0);
    assert FreshSteps(["0", "1"]) == [Step("0", Prepared), Step("1", Prepared)];
  }

  lemma SendsFirst(revision: int, log: seq<Entry>) returns (entry: Entry)
    ensures var s, e := Incident(Claim(revision, false), Held(revision), 0, Plan(false, Prepared, Prepared), log),
        SendStep(9, 0);
            && Legal(s, e) && IsSend(entry, 0, 0) && entry.facts.lease.revision == revision
            && Apply(s, e) == Incident(Claim(revision, true), Held(revision), 1, Plan(true, InFlight(9), Prepared),
                log + [entry])
  {
    var s := Incident(Claim(revision, false), Held(revision), 0, Plan(false, Prepared, Prepared), log);
    entry := StepSent(SnapshotOf(s), 0, 0, 0);
    FirstOpenIsUnique(CurrentOf(s.work).value.steps, 0);
    DispatchExactly(SnapshotOf(s), 0);
    PlanMoves(false, Prepared, Prepared, Prepared);
    PlanMoves(true, Prepared, Prepared, InFlight(9));
    assert Spend(s.funds, "s", 1, 0).segments == map["s" := Segment(1, 1, false)];
    hide NextRotationAction, SnapshotOf, Ordered, FirstOpen;
  }

  lemma SendsSecond(revision: int, log: seq<Entry>) returns (entry: Entry)
    ensures var s, e := Incident(Claim(revision, false), Held(revision), 1, Plan(true, Applied, Prepared), log),
        SendStep(9, 0);
            && Legal(s, e) && IsSend(entry, 0, 1) && entry.facts.lease.revision == revision
            && Apply(s, e) == Incident(Claim(revision, true), Held(revision), 1, Plan(true, Applied, InFlight(9)),
                log + [entry])
  {
    var s := Incident(Claim(revision, false), Held(revision), 1, Plan(true, Applied, Prepared), log);
    entry := StepSent(SnapshotOf(s), 0, 0, 1);
    FirstOpenIsUnique(CurrentOf(s.work).value.steps, 1);
    DispatchExactly(SnapshotOf(s), 0);
    PlanMoves(true, Applied, Prepared, InFlight(9));
    hide NextRotationAction, SnapshotOf, Ordered, FirstOpen;
  }

  /** The first step's only sending is the second entry; answers to it pass the fence. */
  lemma Hears(claim: Claim, lease: Lease, first: Status, second: Status, log: seq<Entry>, conflict: bool,
      report: Option<Report>)
    requires |log| >= 2 && IsSend(log[1], 0, 0) && forall p :: 1 < p < |log| ==> !IsSend(log[p], 0, 0)
    requires !AfterReport(first, conflict, report, 9).NotApplied?
    ensures var s, e := Incident(claim, lease, 1, Plan(true, first, second), log), Receive(0, 1, conflict, report, 9);
            && Legal(s, e)
            && Apply(s, e) == Incident(claim, lease, 1, Plan(true, AfterReport(first, conflict, report, 9), second),
                log)
  {
    hide AfterReport;
    var s := Incident(claim, lease, 1, Plan(true, first, second), log);
    PlanMoves(true, first, second, AfterReport(first, conflict, report, 9));
    assert Answers(s, 0, 1);
    assert LastSending(log, 0, 0) == 1;
    assert Fenced(s, 0, 1);
  }

  /** Step 0 is sent and, its call having timed out, observed applied; step 1 is sent; then the late
      answer of the first call comes in with another resource. The gate is open all along, and the
      second step goes from observed to hidden. */
  lemma LateReceiptHides() returns (states: seq<State>, events: seq<Event>)
    ensures Run(states, events) && |events| == 8
    ensures var s := states[7]; !s.terminated && Outstanding(s, 1) && Observes(s, 1) && GateOpen(SnapshotOf(s))
    ensures var s := states[8]; !s.terminated && Outstanding(s, 1) && GateOpen(SnapshotOf(s))
    ensures Contradicts(states[7], events[7], 1) && Ordered(states[8]) == Pause(OwnershipAmbiguous)
  {
    hide Apply, Legal, AfterReport, IsSend, LastSending, NextRotationAction, GateOpen, Plan;
    Claims(0, 0, Work([], None), []);
    var prepared := Starts(1);
    var first := SendsFirst(1, [prepared]);
    var log := [prepared] + [first];
    HearsApplied(log);
    Releases(Claim(1, true), Held(1), 1, Plan(true, Applied, Prepared), log);
    Claims(1, 1, Plan(true, Applied, Prepared), log);
    var second := SendsSecond(2, log);
    HearsConflict(log + [second]);
    Outcome(log + [second]);
    events := [ClaimLease, StartAttempt("a", ["0", "1"]), SendStep(9, 0), Receive(0, 1, false, Some(ReportApplied), 9),
               Drift(GRANTED, EPOCH, FREE, None, false), ClaimLease, SendStep(9, 0), Receive(0, 1, true, None, 9)];
    states := [
      Incident(Claim(0, true), FREE, 0, Work([], None), []),
      Incident(Claim(1, false), Held(1), 0, Work([], None), []),
      Incident(Claim(1, false), Held(1), 0, Plan(false, Prepared, Prepared), [prepared]),
      Incident(Claim(1, true), Held(1), 1, Plan(true, InFlight(9), Prepared), log),
      Incident(Claim(1, true), Held(1), 1, Plan(true, Applied, Prepared), log),
      Incident(Claim(1, true), FREE, 1, Plan(true, Applied, Prepared), log),
      Incident(Claim(2, false), Held(2), 1, Plan(true, Applied, Prepared), log),
      Incident(Claim(2, true), Held(2), 1, Plan(true, Applied, InFlight(9)), log + [second]),
      Incident(Claim(2, true), Held(2), 1, Plan(true, Ambiguous, InFlight(9)), log + [second])];
  }

  lemma HearsApplied(log: seq<Entry>)
    requires |log| == 2 && IsSend(log[1], 0, 0)
    ensures var s, e := Incident(Claim(1, true), Held(1), 1, Plan(true, InFlight(9), Prepared), log),
        Receive(0, 1, false, Some(ReportApplied), 9);
            Legal(s, e) && Apply(s, e) == Incident(Claim(1, true), Held(1), 1, Plan(true, Applied, Prepared), log)
  {
    Hears(Claim(1, true), Held(1), InFlight(9), Prepared, log, false, Some(ReportApplied));
  }

  lemma HearsConflict(log: seq<Entry>)
    requires |log| == 3 && IsSend(log[1], 0, 0) && IsSend(log[2], 0, 1)
    ensures var s, e := Incident(Claim(2, true), Held(2), 1, Plan(true, Applied, InFlight(9)), log),
        Receive(0, 1, true, None, 9);
            && Legal(s, e) && Contradicts(s, e, 1)
            && Apply(s, e) == Incident(Claim(2, true), Held(2), 1, Plan(true, Ambiguous, InFlight(9)), log)
  {
    Hears(Claim(2, true), Held(2), Applied, InFlight(9), log, true, None);
  }

  lemma Outcome(log: seq<Entry>)
    ensures var s := Incident(Claim(2, true), Held(2), 1, Plan(true, Applied, InFlight(9)), log);
            !s.terminated && Outstanding(s, 1) && Observes(s, 1) && GateOpen(SnapshotOf(s))
    ensures var s := Incident(Claim(2, true), Held(2), 1, Plan(true, Ambiguous, InFlight(9)), log);
            !s.terminated && Outstanding(s, 1) && GateOpen(SnapshotOf(s)) && Ordered(s) == Pause(OwnershipAmbiguous)
  {
    var s := Incident(Claim(2, true), Held(2), 1, Plan(true, Applied, InFlight(9)), log);
    FirstOpenIsUnique(CurrentOf(s.work).value.steps, 1);
    var t := Incident(Claim(2, true), Held(2), 1, Plan(true, Ambiguous, InFlight(9)), log);
    FirstOpenIsUnique(CurrentOf(t.work).value.steps, 0);
  }
}
