/** A step that was sent stays observed until it is answered, whatever becomes of the gate. The one
    thing that hides it is a conflicting receipt of an earlier step of its plan. */
module RotationObservation {
  import opened Wrappers
  import opened RotationMachine
  import opened RotationCoordinator
  import opened RotationBudget

  // ---------------------------------------------------------------- the invariant

  predicate DistinctSteps(steps: seq<Step>) {
    forall i, j :: 0 <= i < j < |steps| ==> steps[i].id != steps[j].id
  }

  /** A status in which a step of a finished plan may be. */
  predicate Resting(status: Status) {
    status.Applied? || status.Ambiguous? || status.Rejected? || status.Abandoned?
  }

  predicate StepsRest(work: Work) {
    CurrentOf(work).Some? ==>
      forall k :: 0 <= k < |CurrentOf(work).value.steps| ==> Resting(CurrentOf(work).value.steps[k].status)
  }

  /** Steps have ids of their own; outside the cloud phase nothing is outstanding. */
  predicate ObservationOk(s: State) {
    && (forall a :: 0 <= a < |s.work.attempts| ==> DistinctSteps(s.work.attempts[a].steps))
    && (!s.phase.CloudPhase? ==> StepsRest(s.work))
  }

  // ---------------------------------------------------------------- ids

  predicate SameIds(a: seq<Step>, b: seq<Step>) {
    |a| == |b| && forall k :: 0 <= k < |a| ==> a[k].id == b[k].id
  }

  predicate SameSteps(after: Work, before: Work) {
    && |after.attempts| == |before.attempts|
    && forall a :: 0 <= a < |before.attempts| ==> SameIds(after.attempts[a].steps, before.attempts[a].steps)
  }

  lemma SendKeepsIds(s: State, observeDeadline: int, minInterval: nat)
    requires Ordered(s).CloudStep? && s.funds.segment in s.funds.segments
    ensures CurrentOf(s.work).Some? && FirstOpen(CurrentOf(s.work).value.steps) < |CurrentOf(s.work).value.steps|
    ensures SameSteps(Sent(s, observeDeadline, minInterval).work, s.work)
  {
    hide Ordered, FirstOpen, SnapshotOf;
    SendIsAfforded(s);
  }

  /** The current attempt gets a status for step `k`; all other steps are as before. */
  predicate StepBecomes(after: Work, before: Work, k: nat, status: Status) {
    && after.current == before.current && |after.attempts| == |before.attempts| && CurrentOf(before).Some?
    && (forall a :: 0 <= a < |before.attempts| && a != before.current.value ==>
          after.attempts[a].steps == before.attempts[a].steps)
    && k < |CurrentOf(before).value.steps|
    && after.attempts[before.current.value].steps == SetStatus(CurrentOf(before).value.steps, k, status)
  }

  lemma ReceiptBecomes(s: State, k: nat, sending: nat, conflict: bool, report: Option<Report>, fallback: int)
    requires CurrentOf(s.work).Some? && k < |CurrentOf(s.work).value.steps|
    ensures StepBecomes(Received(s, k, sending, conflict, report, fallback).work, s.work, k,
                        AfterReport(CurrentOf(s.work).value.steps[k].status, conflict, report, fallback))
  {
    hide AfterReport, SetStatus;
  }

  lemma RefusalBecomes(s: State, k: nat, sending: nat, reason: Rejection, retryAt: Option<int>)
    requires CurrentOf(s.work).Some? && k < |CurrentOf(s.work).value.steps|
    ensures StepBecomes(AfterRefusal(s, k, sending, reason, retryAt).work, s.work, k, Rejected(reason, retryAt))
  {
    hide SetStatus, Spend;
  }

  lemma AnswerBecomes(s: State, e: Event) returns (status: Status)
    requires Legal(s, e) && (e.Receive? || e.Refuse?)
    ensures Answers(s, e.step, e.sending)
    ensures if Fenced(s, e.step, e.sending) then StepBecomes(Apply(s, e).work, s.work, e.step, status)
        else Apply(s, e) == s
    ensures e.Receive? ==>
              status == AfterReport(CurrentOf(s.work).value.steps[e.step].status, e.conflict, e.report,
                  e.fallbackDeadline)
    ensures e.Refuse? ==>
              status == Rejected(e.reason, e.retryAt) && !CurrentOf(s.work).value.steps[e.step].status.Applied?
  {
    hide StepBecomes, Received, AfterRefusal, AfterReport, Fenced, LastSending, IsSend;
    if e.Receive? {
      ReceiptBecomes(s, e.step, e.sending, e.conflict, e.report, e.fallbackDeadline);
      status := AfterReport(CurrentOf(s.work).value.steps[e.step].status, e.conflict, e.report, e.fallbackDeadline);
    } else {
      RefusalBecomes(s, e.step, e.sending, e.reason, e.retryAt);
      status := Rejected(e.reason, e.retryAt);
    }
  }

  lemma AnswersKeepIds(s: State, e: Event)
    requires Legal(s, e) && (e.Receive? || e.Refuse?)
    ensures SameSteps(Apply(s, e).work, s.work)
  {
    hide Apply, Legal, AfterReport, Answers, Fenced;
    var status := AnswerBecomes(s, e);
  }

  lemma RewritesKeepIds(work: Work, which: Status -> bool, status: Status)
    ensures SameSteps(WithSteps(work, which, status), work)
  {
  }

  lemma PlansKeepIds(s: State, e: Event)
    requires Legal(s, e) && (e.Recover? || e.Resume? || e.Terminate?)
    ensures SameSteps(Apply(s, e).work, s.work)
  {
    hide WithSteps, SameIds;
    RewritesKeepIds(s.work, Recoverable, Prepared);
    RewritesKeepIds(s.work, Unapplied, Abandoned);
    RewritesKeepIds(s.work, Conclusive, Prepared);
    Reflexive(s.work);
  }

  lemma Reflexive(work: Work)
    ensures SameSteps(work, work)
  {
  }

  /** Everything but a new attempt keeps the attempts and the ids of their steps. */
  lemma IdsStay(s: State, e: Event)
    requires Legal(s, e) && !e.StartAttempt?
    ensures SameSteps(Apply(s, e).work, s.work)
  {
    hide SameSteps, Ordered, FirstOpen, Sent, Answers, Fenced, AfterRefusal, Received, WithSteps, SnapshotOf;
    if !TouchesWork(e) {
      Frame(s, e);
      Reflexive(s.work);
    } else if e.SendStep? {
      SendKeepsIds(s, e.observeDeadline, e.minInterval);
    } else if e.Receive? || e.Refuse? {
      AnswersKeepIds(s, e);
    } else {
      PlansKeepIds(s, e);
    }
  }

  lemma SameIdsAreDistinct(a: seq<Step>, b: seq<Step>)
    requires SameIds(a, b) && DistinctSteps(b)
    ensures DistinctSteps(a)
  {
  }

  // ---------------------------------------------------------------- phases

  lemma CloudNeverCompletes(s: Snapshot, now: int)
    requires s.phase.CloudPhase?
    ensures !NextRotationAction(s, now).Complete? && !NextRotationAction(s, now).DispatchPublication?
  {
    hide FirstOpen;
  }

  lemma AnswersKeepRest(s: State, e: Event)
    requires Legal(s, e) && StepsRest(s.work) && (e.Receive? || e.Refuse?)
    ensures StepsRest(Apply(s, e).work)
  {
    hide Apply, Legal, Fenced, Answers;
    var status := AnswerBecomes(s, e);
  }

  /** Outside the cloud phase a step's status changes only between resting ones. */
  lemma RestKeeps(s: State, e: Event)
    requires Legal(s, e) && !s.phase.CloudPhase? && StepsRest(s.work) && !e.StartAttempt?
    ensures StepsRest(Apply(s, e).work)
  {
    hide Ordered, Sent, Answers, Fenced, AfterRefusal, Received;
    if !TouchesWork(e) {
      hide StepsRest;
      Frame(s, e);
    } else if e.SendStep? {
      CloudStepInCloud(s);
    } else if e.Receive? || e.Refuse? {
      AnswersKeepRest(s, e);
    }
  }

  lemma CloudStepInCloud(s: State)
    requires Ordered(s).CloudStep?
    ensures s.phase.CloudPhase?
  {
    hide NextRotationAction, FirstOpen;
    DispatchExactly(SnapshotOf(s), s.now);
  }

  /** The cloud phase is left only with every step applied. */
  lemma LeavingCloud(s: State, e: Event)
    requires Legal(s, e) && s.phase.CloudPhase? && !Apply(s, e).phase.CloudPhase?
    ensures e.Install? && StepsRest(Apply(s, e).work)
  {
    hide NextRotationAction, FirstOpen, AfterReport, Answers, Fenced, LastSending, WithSteps, SetStatus, Closed,
        Applicable;
    CloudNeverCompletes(SnapshotOf(s), s.now);
  }

  lemma StepKeepsObservation(s: State, e: Event)
    requires ObservationOk(s) && Legal(s, e)
    ensures ObservationOk(Apply(s, e))
  {
    hide Apply, Legal, StepsRest, DistinctSteps, SameIds;
    var t := Apply(s, e);
    if e.StartAttempt? {
      StartKeepsObservation(s, e);
    } else {
      IdsStay(s, e);
      forall a | 0 <= a < |t.work.attempts| ensures DistinctSteps(t.work.attempts[a].steps) {
        SameIdsAreDistinct(t.work.attempts[a].steps, s.work.attempts[a].steps);
      }
      if s.phase.CloudPhase? && !t.phase.CloudPhase? {
        LeavingCloud(s, e);
      } else if !s.phase.CloudPhase? {
        RestKeeps(s, e);
      }
    }
  }

  lemma StartKeepsObservation(s: State, e: Event)
    requires ObservationOk(s) && Legal(s, e) && e.StartAttempt?
    ensures ObservationOk(Apply(s, e))
  {
    hide NextRotationAction, SnapshotOf, Ordered;
  }

  // ---------------------------------------------------------------- outstanding steps

  /** Step `k` of the current attempt was sent and has no settled answer yet. */
  predicate Outstanding(s: State, k: nat) {
    CurrentOf(s.work).Some? && k < |CurrentOf(s.work).value.steps| && Unsettled(CurrentOf(s.work).value.steps[k].status)
  }

  /** Every earlier step of its plan is applied. */
  predicate Unobstructed(s: State, k: nat)
    requires Outstanding(s, k)
  {
    forall i :: 0 <= i < k ==> CurrentOf(s.work).value.steps[i].status.Applied?
  }

  /** The coordinator observes this step next, whatever the gate says. */
  predicate Observes(s: State, k: nat)
    requires Outstanding(s, k)
  {
    var attempt := CurrentOf(s.work).value;
    Ordered(s) == Observe(attempt.id, attempt.steps[k].id, s.now >= attempt.steps[k].status.observeDeadline)
  }

  lemma OutstandingInCloud(s: State, k: nat)
    requires ObservationOk(s) && Outstanding(s, k)
    ensures s.phase.CloudPhase?
  {
    assert !Resting(CurrentOf(s.work).value.steps[k].status);
  }

  /** An outstanding step keeps the incident in the cloud phase, and it is observed next exactly
      when nothing earlier in its plan obstructs it. */
  lemma ObservedExactly(s: State, k: nat)
    requires ObservationOk(s) && !s.terminated && Outstanding(s, k)
    ensures s.phase.CloudPhase?
    ensures Observes(s, k) <==> Unobstructed(s, k)
    ensures (Ordered(s).Observe? && Ordered(s).step == CurrentOf(s.work).value.steps[k].id) <==> Unobstructed(s, k)
  {
    hide NextRotationAction;
    OutstandingInCloud(s, k);
    var attempt := CurrentOf(s.work).value;
    assert SnapshotOf(s).attempt == Some(attempt);
    if Unobstructed(s, k) {
      UnsettledIsObserved(SnapshotOf(s), s.now, k);
    } else if Ordered(s).Observe? {
      ObservesFirstOpen(SnapshotOf(s), s.now);
      assert FirstOpen(attempt.steps) < k;
    }
  }

  lemma ObservesFirstOpen(s: Snapshot, now: int)
    requires s.phase.CloudPhase? && s.attempt.Some? && NextRotationAction(s, now).Observe?
    ensures var steps := s.attempt.value.steps;
            FirstOpen(steps) < |steps| && NextRotationAction(s, now).step == steps[FirstOpen(steps)].id
  {
    hide FirstOpen;
  }

  // ---------------------------------------------------------------- one event

  /** The event answers step `k`: it passes the fence of the step's last sending. */
  predicate Answered(s: State, e: Event, k: nat) {
    (e.Receive? || e.Refuse?) && e.step == k && Answers(s, k, e.sending) && Fenced(s, k, e.sending)
  }

  /** A receipt of an earlier step that contradicts what is known of its resources. */
  predicate Contradicts(s: State, e: Event, k: nat) {
    e.Receive? && e.conflict && e.step < k && Answers(s, e.step, e.sending) && Fenced(s, e.step, e.sending)
  }

  lemma EndsByTermination(s: State, e: Event)
    requires Legal(s, e)
    ensures Apply(s, e).terminated == (s.terminated || e.Terminate?)
  {
    hide NextRotationAction, FirstOpen, AfterReport, Applicable, PostingOf, SnapshotOf, Ordered, Rewritten, SetStatus,
      Spend, Answers, Fenced, LastSending, FreshSteps, WithStep, Started, MidPlan, Widen, Blank, Expired, WithSteps,
      SetCharge, Closed;
  }

  /** The current attempt stays, and of its steps only the picked one changes. */
  predicate OnlyStep(s: State, t: State, picked: nat) {
    && CurrentOf(s.work).Some? && CurrentOf(t.work).Some? && t.work.current == s.work.current
    && var before, after := CurrentOf(s.work).value.steps, CurrentOf(t.work).value.steps;
    && |after| == |before| && forall i :: 0 <= i < |before| && i != picked ==> after[i] == before[i]
  }

  lemma AnswerTouchesStep(s: State, e: Event)
    requires Legal(s, e) && (e.Receive? || e.Refuse?)
    ensures Answers(s, e.step, e.sending) && OnlyStep(s, Apply(s, e), e.step)
    ensures !Fenced(s, e.step, e.sending) ==> Apply(s, e) == s
    ensures var before, after := CurrentOf(s.work).value.steps[e.step].status,
        CurrentOf(Apply(s, e).work).value.steps[e.step].status;
            before.Applied? && !after.Applied? ==> e.Receive? && e.conflict
  {
    hide Apply, Legal, Fenced, IsSend;
    var status := AnswerBecomes(s, e);
  }

  lemma SendTouchesOpen(s: State, e: Event)
    requires Legal(s, e) && e.SendStep?
    ensures CurrentOf(s.work).Some?
    ensures OnlyStep(s, Apply(s, e), FirstOpen(CurrentOf(s.work).value.steps))
    ensures var k := FirstOpen(CurrentOf(s.work).value.steps);
            && Outstanding(Apply(s, e), k) && Unobstructed(Apply(s, e), k)
            && !Unsettled(CurrentOf(s.work).value.steps[k].status)
  {
    hide NextRotationAction, SnapshotOf, FirstOpen;
    SendIsAfforded(s);
    DispatchExactly(SnapshotOf(s), s.now);
    assert SnapshotOf(s).attempt == CurrentOf(s.work) by {
      SnapshotShowsAttempt(s);
    }
  }

  lemma SnapshotShowsAttempt(s: State)
    ensures SnapshotOf(s).attempt == CurrentOf(s.work) && SnapshotOf(s).phase == s.phase
  {
  }

  /** Recovery, resumption and new attempts leave an outstanding step alone. */
  lemma PlansSpareOutstanding(s: State, e: Event, k: nat)
    requires Legal(s, e) && Outstanding(s, k) && s.phase.CloudPhase? && (e.Recover? || e.Resume? || e.StartAttempt?)
    ensures e.Recover? && OnlyApplied(s, Apply(s, e), k)
  {
    hide NextRotationAction, SnapshotOf, FirstOpen;
    if e.StartAttempt? {
      PrepareExactly(SnapshotOf(s), s.now);
      SnapshotShowsAttempt(s);
    } else if e.Recover? {
      RewriteSpares(s, Recoverable, k);
    }
  }

  lemma RewriteSpares(s: State, which: Status -> bool, k: nat)
    requires Outstanding(s, k) && forall status :: which(status) ==> !Unsettled(status) && !status.Applied?
    ensures OnlyApplied(s, s.(work := WithSteps(s.work, which, Prepared)), k)
  {
  }

  /** The current attempt stays, its step `k` does not change, and no applied step is undone. */
  predicate OnlyApplied(s: State, t: State, k: nat) {
    && CurrentOf(s.work).Some? && CurrentOf(t.work).Some? && t.work.current == s.work.current
    && var before, after := CurrentOf(s.work).value.steps, CurrentOf(t.work).value.steps;
    && |after| == |before| && k < |before| && after[k] == before[k]
    && forall i :: 0 <= i < |before| && before[i].status.Applied? ==> after[i].status.Applied?
  }

  /** Until it is answered or the incident is terminated, a sent step stays outstanding, and only
      a contradicting receipt of an earlier step can come to obstruct it. */
  lemma OutstandingStays(s: State, e: Event, k: nat)
    requires ObservationOk(s) && Legal(s, e) && !s.terminated && Outstanding(s, k)
    requires !Answered(s, e, k) && !e.Terminate?
    ensures !Apply(s, e).terminated && Apply(s, e).work.current == s.work.current
    ensures Outstanding(Apply(s, e), k)
    ensures Unobstructed(s, k) && !Unobstructed(Apply(s, e), k) ==> Contradicts(s, e, k)
  {
    hide Apply, Legal, ObservationOk, Answers, Fenced;
    EndsByTermination(s, e);
    OutstandingInCloud(s, k);
    if !TouchesWork(e) {
      Frame(s, e);
    } else if e.SendStep? {
      SendTouchesOpen(s, e);
    } else if e.Receive? || e.Refuse? {
      AnswerTouchesStep(s, e);
    } else {
      PlansSpareOutstanding(s, e, k);
    }
  }
}
