/** Every status of a step has its cause: what the coordinator believes of a step is what it was told
    about it, and nothing else. */
module RotationAnswers {
  import opened Wrappers
  import opened RotationMachine
  import opened RotationCoordinator
  import opened RotationBudget
  import opened RotationObservation

  /** The event that may bring a step to this status. */
  predicate Causes(e: Event, status: Status) {
    match status
    case Applied => e.Receive? && !e.conflict && e.report == Some(ReportApplied)
    case NotApplied => e.Receive? && !e.conflict && e.report == Some(ReportNotApplied)
    case Ambiguous => e.Receive? && (e.conflict || e.report == Some(ReportAmbiguous))
    case Pending(_) => e.Receive? && !e.conflict && (e.report == None || e.report == Some(StillPending))
    case Rejected(reason, retryAt) => e.Refuse? && e.reason == reason && e.retryAt == retryAt
    case InFlight(deadline) => e.SendStep? && e.observeDeadline == deadline
    case Prepared => e.StartAttempt? || e.Recover? || e.Resume?
    case Abandoned => e.Terminate?
  }

  /** The event is word from the cloud about step `k` of attempt `a` that passes the fence. */
  predicate Hears(s: State, e: Event, a: nat, k: nat) {
    && (e.Receive? || e.Refuse?) && e.step == k && s.work.current == Some(a)
    && Answers(s, k, e.sending) && Fenced(s, k, e.sending)
  }

  function StatusAt(s: State, a: nat, k: nat): Option<Status> {
    if a < |s.work.attempts| && k < |s.work.attempts[a].steps| then Some(s.work.attempts[a].steps[k].status) else None
  }

  /** What one event does to one step: nothing, or it brings the status it causes, by a word about
      that very step when it comes from the cloud. */
  ghost predicate Explained(s: State, e: Event, t: State, a: nat, k: nat) {
    StatusAt(t, a, k).Some? && StatusAt(t, a, k) != StatusAt(s, a, k) ==>
      Causes(e, StatusAt(t, a, k).value) && (e.Receive? || e.Refuse? ==> Hears(s, e, a, k))
  }

  lemma AnswerExplains(s: State, e: Event, a: nat, k: nat)
    requires Legal(s, e) && (e.Receive? || e.Refuse?)
    ensures Explained(s, e, Apply(s, e), a, k)
  {
    hide Apply, Legal, Fenced, IsSend;
    var status := AnswerBecomes(s, e);
  }

  lemma SendExplains(s: State, e: Event, a: nat, k: nat)
    requires Legal(s, e) && e.SendStep?
    ensures Explained(s, e, Apply(s, e), a, k)
  {
    hide NextRotationAction, SnapshotOf, FirstOpen;
    SendIsAfforded(s);
    DispatchExactly(SnapshotOf(s), s.now);
  }

  lemma PlansExplain(s: State, e: Event, a: nat, k: nat)
    requires Legal(s, e) && (e.StartAttempt? || e.Recover? || e.Resume? || e.Terminate?)
    ensures Explained(s, e, Apply(s, e), a, k)
  {
    hide NextRotationAction, SnapshotOf, Ordered, FirstOpen;
  }

  lemma EventsExplain(s: State, e: Event, a: nat, k: nat)
    requires Legal(s, e)
    ensures Explained(s, e, Apply(s, e), a, k)
  {
    if !TouchesWork(e) {
      hide Apply, Legal;
      Frame(s, e);
    } else if e.SendStep? {
      SendExplains(s, e, a, k);
    } else if e.Receive? || e.Refuse? {
      AnswerExplains(s, e, a, k);
    } else {
      PlansExplain(s, e, a, k);
    }
  }

  /** An answer to an outstanding step is recorded for what it says, and it keeps the deadline while
      the step is pending. */
  lemma AnswerIsRecorded(s: State, e: Event, k: nat)
    requires Legal(s, e) && Outstanding(s, k) && Answered(s, e, k)
    ensures Apply(s, e).work.current == s.work.current && CurrentOf(Apply(s, e).work).Some?
    ensures k < |CurrentOf(Apply(s, e).work).value.steps|
    ensures var before, after := CurrentOf(s.work).value.steps[k].status,
        CurrentOf(Apply(s, e).work).value.steps[k].status;
            && (after.Applied? <==> e.Receive? && !e.conflict && e.report == Some(ReportApplied))
            && (after.NotApplied? <==> e.Receive? && !e.conflict && e.report == Some(ReportNotApplied))
            && (after.Ambiguous? <==> e.Receive? && (e.conflict || e.report == Some(ReportAmbiguous)))
            && (after.Pending? <==> e.Receive? && !e.conflict && (e.report == None || e.report == Some(StillPending)))
            && (after.Pending? ==> after.observeDeadline == before.observeDeadline)
            && (e.Refuse? <==> after.Rejected?) && (e.Refuse? ==> after == Rejected(e.reason, e.retryAt))
  {
    hide Apply, Legal, Fenced, IsSend;
    var status := AnswerBecomes(s, e);
  }

  // ---------------------------------------------------------------- over runs

  /** Before the `i`-th state step `k` of attempt `a`, then the current one, was answered so. */
  ghost predicate ToldBefore(states: seq<State>, events: seq<Event>, i: nat, a: nat, k: nat, status: Status)
    requires |states| == |events| + 1 && i < |states|
  {
    exists m :: 0 <= m < i && Hears(states[m], events[m], a, k) && Causes(events[m], status)
  }

  /** Whatever comes from the cloud: applied, not applied, ambiguous, pending or refused. */
  predicate FromCloud(status: Status) {
    status.Applied? || status.NotApplied? || status.Ambiguous? || status.Pending? || status.Rejected?
  }

  /** A step has such a status in a run only if that was said of this very step before. */
  lemma {:induction false} StatusWasTold(states: seq<State>, events: seq<Event>, i: nat, a: nat, k: nat)
    requires Run(states, events) && i < |states|
    requires StatusAt(states[i], a, k).Some? && FromCloud(StatusAt(states[i], a, k).value)
    ensures ToldBefore(states, events, i, a, k, StatusAt(states[i], a, k).value)
  {
    hide Apply, Legal, Causes, Hears, FromCloud;
    if i > 0 {
      EventsExplain(states[i - 1], events[i - 1], a, k);
      assert states[i - 1 + 1] == Apply(states[i - 1], events[i - 1]);
      if StatusAt(states[i], a, k) == StatusAt(states[i - 1], a, k) {
        StatusWasTold(states, events, i - 1, a, k);
      } else {
        CauseIsWord(events[i - 1], StatusAt(states[i], a, k).value);
      }
    }
  }

  lemma CauseIsWord(e: Event, status: Status)
    requires Causes(e, status) && FromCloud(status)
    ensures e.Receive? || e.Refuse?
  {
  }

  /** The `p`-th entry, when it sent a step, was logged by an event of the run on the state of then. */
  lemma {:induction false} SendingHadItsEvent(states: seq<State>, events: seq<Event>, i: nat, p: nat) returns (m: nat)
    requires Run(states, events) && i < |states| && p < |states[i].log| && states[i].log[p].StepSent?
    ensures m < i && events[m].SendStep? && |states[m].log| == p
        && states[m].work.current == Some(states[i].log[p].attempt)
    ensures states[i].log[p].facts.attempt == CurrentOf(states[m].work)
  {
    hide Apply, Legal;
    var s, e := states[i - 1], events[i - 1];
    assert states[i - 1 + 1] == Apply(s, e);
    Frame(s, e);
    if p < |s.log| {
      m := SendingHadItsEvent(states, events, i - 1, p);
    } else {
      m := i - 1;
      SendingIsCurrent(s, e);
    }
  }

  lemma SendingIsCurrent(s: State, e: Event)
    requires Legal(s, e) && |Apply(s, e).log| > |s.log| && Apply(s, e).log[|s.log|].StepSent?
    ensures e.SendStep? && s.work.current == Some(Apply(s, e).log[|s.log|].attempt)
    ensures Apply(s, e).log[|s.log|].facts.attempt == CurrentOf(s.work)
  {
    hide NextRotationAction, FirstOpen, AfterReport, Fenced, LastSending, SetStatus, BudgetOf, EvidenceOf, PostingOf;
    if e.SendStep? {
      SendIsAfforded(s);
      DispatchExactly(SnapshotOf(s), s.now);
      SnapshotShowsAttempt(s);
    }
  }
}
