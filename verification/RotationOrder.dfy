/** Every event keeps the order of cloud steps: a step goes out after all earlier ones were sent
    and applied, and goes out again only after positive word that it had no effect. */
module RotationOrder {
  import opened Wrappers
  import opened RotationMachine
  import opened RotationCoordinator
  import opened RotationBudget
  import opened RotationFence

  /** Within the first `n` entries, every sending of the step was followed by word that this very
      sending had no effect. */
  ghost predicate ClearedTo(log: seq<Entry>, n: nat, attempt: nat, step: nat)
    requires n <= |log|
  {
    forall p :: 0 <= p < n && IsSend(log[p], attempt, step) ==> exists r ::
        p < r < n && log[r] == NoEffect(attempt, step, p)
  }

  ghost predicate StepOk(status: Status, log: seq<Entry>, attempt: nat, step: nat) {
    && (status.Prepared? || Conclusive(status) ==> ClearedTo(log, |log|, attempt, step))
    && (status.Prepared? || status.Abandoned? || SentBy(log, |log|, attempt, step))
  }

  ghost predicate StepsOk(attempts: seq<Attempt>, log: seq<Entry>) {
    && (forall a, k :: 0 <= a < |attempts| && 0 <= k < |attempts[a].steps| ==>
        StepOk(attempts[a].steps[k].status, log, a, k))
    && (forall p :: 0 <= p < |log| && log[p].StepSent? ==> log[p].attempt < |attempts|)
  }

  /** What is known of the `p`-th entry when it sent a step. */
  ghost predicate SendOk(log: seq<Entry>, p: nat)
    requires p < |log|
  {
    log[p].StepSent? ==>
      var facts, a, k := log[p].facts, log[p].attempt, log[p].step;
      && facts.attempt.Some? && k == FirstOpen(facts.attempt.value.steps) && MayDispatch(facts, log[p].at, k)
      && ClearedTo(log, p, a, k) && forall i: nat :: i < k ==> SentBy(log, p, a, i)
  }

  ghost predicate SendsOk(log: seq<Entry>) {
    forall p :: 0 <= p < |log| ==> SendOk(log, p)
  }

  lemma Prefix(log: seq<Entry>, longer: seq<Entry>, n: nat, attempt: nat, step: nat)
    requires n <= |log| <= |longer| && forall p :: 0 <= p < |log| ==> longer[p] == log[p]
    ensures ClearedTo(longer, n, attempt, step) == ClearedTo(log, n, attempt, step)
    ensures SentBy(longer, n, attempt, step) == SentBy(log, n, attempt, step)
  {
    if ClearedTo(log, n, attempt, step) {
      forall p | 0 <= p < n && IsSend(longer[p], attempt, step)
        ensures exists r :: p < r < n && longer[r] == NoEffect(attempt, step, p)
      {
        assert IsSend(log[p], attempt, step);
        var r :| p < r < n && log[r] == NoEffect(attempt, step, p);
        assert longer[r] == NoEffect(attempt, step, p);
      }
    }
    if ClearedTo(longer, n, attempt, step) {
      forall p | 0 <= p < n && IsSend(log[p], attempt, step)
        ensures exists r :: p < r < n && log[r] == NoEffect(attempt, step, p)
      {
        assert IsSend(longer[p], attempt, step);
        var r :| p < r < n && longer[r] == NoEffect(attempt, step, p);
        assert log[r] == NoEffect(attempt, step, p);
      }
    }
    if SentBy(log, n, attempt, step) {
      var p :| 0 <= p < n && IsSend(log[p], attempt, step);
      assert IsSend(longer[p], attempt, step);
    }
    if SentBy(longer, n, attempt, step) {
      var p :| 0 <= p < n && IsSend(longer[p], attempt, step);
      assert IsSend(log[p], attempt, step);
    }
  }

  /** A further entry that does not send the step changes nothing about it. */
  lemma Grown(log: seq<Entry>, e: Entry, attempt: nat, step: nat)
    requires !IsSend(e, attempt, step)
    ensures ClearedTo(log, |log|, attempt, step) ==> ClearedTo(log + [e], |log| + 1, attempt, step)
    ensures SentBy(log, |log|, attempt, step) ==> SentBy(log + [e], |log| + 1, attempt, step)
  {
    Prefix(log, log + [e], |log|, attempt, step);
    assert (log + [e])[|log|] == e;
    if ClearedTo(log, |log|, attempt, step) {
      forall p | 0 <= p < |log| + 1 && IsSend((log + [e])[p], attempt, step)
        ensures exists r :: p < r < |log| + 1 && (log + [e])[r] == NoEffect(attempt, step, p)
      {
        var r :| p < r < |log| && (log + [e])[r] == NoEffect(attempt, step, p);
      }
    }
  }

  /** Word about the last sending clears the step, when all earlier sendings were cleared before it. */
  lemma {:induction false} WordClears(log: seq<Entry>, attempt: nat, step: nat)
    requires SendsOk(log) && LastSending(log, attempt, step) >= 0
    ensures var e := NoEffect(attempt, step, LastSending(log, attempt, step));
        ClearedTo(log + [e], |log| + 1, attempt, step)
  {
    hide FirstOpen, MayDispatch, SentBy;
    var last := LastSending(log, attempt, step);
    var longer := log + [NoEffect(attempt, step, last)];
    assert SendOk(log, last);
    forall p | 0 <= p < |log| + 1 && IsSend(longer[p], attempt, step)
      ensures exists r :: p < r < |log| + 1 && longer[r] == NoEffect(attempt, step, p)
    {
      if p < last {
        assert IsSend(log[p], attempt, step);
        var r :| p < r < last && log[r] == NoEffect(attempt, step, p);
        assert longer[r] == NoEffect(attempt, step, p);
      } else {
        assert p == last && longer[|log|] == NoEffect(attempt, step, p);
      }
    }
  }

  /** Logging anything that is not a sending, with the steps as they were. */
  lemma LogKeepsSteps(attempts: seq<Attempt>, log: seq<Entry>, e: Entry)
    requires StepsOk(attempts, log) && !e.StepSent?
    ensures StepsOk(attempts, log + [e])
  {
    hide ClearedTo, SentBy;
    forall a, k | 0 <= a < |attempts| && 0 <= k < |attempts[a].steps|
      ensures StepOk(attempts[a].steps[k].status, log + [e], a, k)
    {
      Grown(log, e, a, k);
    }
  }

  lemma LogKeepsSends(log: seq<Entry>, e: Entry)
    requires SendsOk(log) && (e.StepSent? ==> SendOk(log + [e], |log|))
    ensures SendsOk(log + [e])
  {
    hide ClearedTo, SentBy, FirstOpen, MayDispatch;
    var longer := log + [e];
    forall p | 0 <= p < |longer| ensures SendOk(longer, p) {
      if p < |log| && log[p].StepSent? {
        assert SendOk(log, p);
        Prefix(log, longer, p, log[p].attempt, log[p].step);
        forall i: nat | i < log[p].step ensures SentBy(longer, p, log[p].attempt, i) {
          Prefix(log, longer, p, log[p].attempt, i);
        }
      }
    }
  }

  /** Rewriting steps of the current attempt, each to a status the log supports. */
  lemma RewriteKeepsSteps(work: Work, after: Work, log: seq<Entry>)
    requires StepsOk(work.attempts, log) && CurrentOf(work).Some?
    requires |after.attempts| == |work.attempts|
    requires forall a :: 0 <= a < |work.attempts| && a != work.current.value ==>
        after.attempts[a].steps == work.attempts[a].steps
    requires forall k :: 0 <= k < |after.attempts[work.current.value].steps| ==>
               StepOk(after.attempts[work.current.value].steps[k].status, log, work.current.value, k)
    ensures StepsOk(after.attempts, log)
  {
    hide StepOk;
  }

  /** Changes of status that need no new word from the cloud. */
  predicate Harmless(before: Status, after: Status) {
    || before == after
    || (after.Prepared? && Conclusive(before))
    || after.Abandoned?
    || (after.Pending? && !before.Prepared? && !before.Abandoned?)
    || (after.Applied? && !before.Prepared? && !before.Abandoned?)
    || (after.Ambiguous? && !before.Prepared? && !before.Abandoned?)
  }

  lemma RewritesAreHarmless(work: Work, which: Status -> bool, status: Status, log: seq<Entry>)
    requires StepsOk(work.attempts, log)
    requires forall s :: which(s) ==> Harmless(s, status)
    ensures StepsOk(WithSteps(work, which, status).attempts, log)
  {
    hide ClearedTo, SentBy;
    if CurrentOf(work).Some? {
      var after := WithSteps(work, which, status);
      forall k | 0 <= k < |after.attempts[work.current.value].steps|
        ensures StepOk(after.attempts[work.current.value].steps[k].status, log, work.current.value, k)
      {
        assert StepOk(work.attempts[work.current.value].steps[k].status, log, work.current.value, k);
        assert which(work.attempts[work.current.value].steps[k].status) ==>
            Harmless(work.attempts[work.current.value].steps[k].status, status);
      }
      RewriteKeepsSteps(work, after, log);
    }
  }

  // ---------------------------------------------------------------- events

  ghost predicate OrderOk(s: State) {
    StepsOk(s.work.attempts, s.log) && SendsOk(s.log)
  }

  lemma SendKeepsOrder(s: State, observeDeadline: int, minInterval: nat)
    requires OrderOk(s) && Ordered(s).CloudStep? && s.funds.segment in s.funds.segments
    ensures CurrentOf(s.work).Some? && FirstOpen(CurrentOf(s.work).value.steps) < |CurrentOf(s.work).value.steps|
    ensures OrderOk(Sent(s, observeDeadline, minInterval))
  {
    hide NextRotationAction, FirstOpen, ClearedTo, SentBy, SendsOk;
    SendIsAfforded(s);
    DispatchExactly(SnapshotOf(s), s.now);
    var c, t := s.work.current.value, Sent(s, observeDeadline, minInterval);
    var steps := s.work.attempts[c].steps;
    var k := FirstOpen(steps);
    var e := StepSent(SnapshotOf(s), s.now, c, k);
    assert StepOk(steps[k].status, s.log, c, k);
    Prefix(s.log, t.log, |s.log|, c, k);
    forall i: nat | i < k ensures SentBy(t.log, |s.log|, c, i) {
      assert StepOk(steps[i].status, s.log, c, i);
      Prefix(s.log, t.log, |s.log|, c, i);
    }
    LogKeepsSends(s.log, e);
    forall a, i | 0 <= a < |t.work.attempts| && 0 <= i < |t.work.attempts[a].steps|
      ensures StepOk(t.work.attempts[a].steps[i].status, t.log, a, i)
    {
      if a == c && i == k {
        SendIsSent(s.log, e);
      } else {
        assert StepOk(s.work.attempts[a].steps[i].status, s.log, a, i);
        Grown(s.log, e, a, i);
      }
    }
  }

  lemma SendIsSent(log: seq<Entry>, e: Entry)
    requires e.StepSent?
    ensures SentBy(log + [e], |log| + 1, e.attempt, e.step)
  {
    assert IsSend((log + [e])[|log|], e.attempt, e.step);
  }

  /** One step gets a status, and word of no effect is logged with it. */
  lemma {:induction false} NoEffectKeepsOrder(work: Work, log: seq<Entry>, k: nat, status: Status)
    requires StepsOk(work.attempts, log) && SendsOk(log) && CurrentOf(work).Some? && k < |CurrentOf(work).value.steps|
    requires Conclusive(status) && SentBy(log, |log|, work.current.value, k)
        && LastSending(log, work.current.value, k) >= 0
    ensures var e := NoEffect(work.current.value, k, LastSending(log, work.current.value, k));
            StepsOk(WithStep(work, k, status).attempts, log + [e]) && SendsOk(log + [e])
  {
    hide ClearedTo, SentBy, SendsOk, LastSending;
    var c := work.current.value;
    var e, after := NoEffect(c, k, LastSending(log, c, k)), WithStep(work, k, status);
    LogKeepsSteps(work.attempts, log, e);
    LogKeepsSends(log, e);
    Grown(log, e, c, k);
    WordClears(log, c, k);
    forall i | 0 <= i < |after.attempts[c].steps| ensures StepOk(after.attempts[c].steps[i].status, log + [e], c, i) {
      assert StepOk(work.attempts[c].steps[i].status, log + [e], c, i);
    }
    RewriteKeepsSteps(work, after, log + [e]);
  }

  lemma {:induction false} AnswersAreSent(s: State, k: nat, sending: nat)
    requires Answers(s, k, sending)
    ensures SentBy(s.log, |s.log|, s.work.current.value, k) && LastSending(s.log, s.work.current.value, k) >= 0
  {
  }

  lemma RefuseKeepsOrder(s: State, k: nat, sending: nat, reason: Rejection, retryAt: Option<int>)
    requires OrderOk(s) && FenceOk(s) && Answers(s, k, sending) && Fenced(s, k, sending)
    ensures OrderOk(AfterRefusal(s, k, sending, reason, retryAt))
  {
    hide StepOk, SendOk, SentBy, SendsOk, FenceOk, LastSending, Fenced;
    AnswersAreSent(s, k, sending);
    FencedAnswersLast(s, k, sending);
    var released := if k == 0 then Refund(s) else s;
    NoEffectKeepsOrder(released.work, s.log, k, Rejected(reason, retryAt));
  }

  lemma ReceiveKeepsOrder(s: State, k: nat, sending: nat, conflict: bool, report: Option<Report>, fallback: int)
    requires OrderOk(s) && FenceOk(s) && Answers(s, k, sending) && Fenced(s, k, sending)
    ensures OrderOk(Received(s, k, sending, conflict, report, fallback))
  {
    hide ClearedTo, SentBy, SendsOk, FenceOk, LastSending, Fenced;
    AnswersAreSent(s, k, sending);
    FencedAnswersLast(s, k, sending);
    var c := s.work.current.value;
    var prior := s.work.attempts[c].steps[k].status;
    var status := AfterReport(prior, conflict, report, fallback);
    if status.NotApplied? && !prior.NotApplied? {
      NoEffectKeepsOrder(s.work, s.log, k, status);
    } else {
      var after := WithStep(s.work, k, status);
      assert StepOk(prior, s.log, c, k);
      forall i | 0 <= i < |after.attempts[c].steps| ensures StepOk(after.attempts[c].steps[i].status, s.log, c, i) {
        assert StepOk(s.work.attempts[c].steps[i].status, s.log, c, i);
      }
      RewriteKeepsSteps(s.work, after, s.log);
    }
  }

  lemma StartKeepsOrder(s: State, id: Id, plan: seq<Id>, e: Entry)
    requires OrderOk(s) && e.AttemptPrepared?
    ensures StepsOk(Started(s.work, id, s.funds.segment, plan).attempts, s.log + [e]) && SendsOk(s.log + [e])
  {
    hide SendsOk;
    LogKeepsSteps(s.work.attempts, s.log, e);
    LogKeepsSends(s.log, e);
  }

  lemma PlansKeepOrder(s: State, e: Event)
    requires OrderOk(s) && Legal(s, e) && (e.Recover? || e.Resume? || e.Terminate?)
    ensures OrderOk(Apply(s, e))
  {
    hide StepOk, SendOk, SendsOk, WithSteps;
    if e.Recover? {
      RewritesAreHarmless(s.work, Recoverable, Prepared, s.log);
    } else if e.Terminate? {
      RewritesAreHarmless(s.work, Unapplied, Abandoned, s.log);
    } else {
      RewritesAreHarmless(s.work, Conclusive, Prepared, s.log);
    }
  }

  lemma OthersKeepOrder(s: State, e: Event)
    requires OrderOk(s) && Legal(s, e) && !TouchesWork(e) && (e.StartPublication? || e.EndPublishing? || e.SendCleanup?)
    ensures OrderOk(Apply(s, e))
  {
    hide StepsOk, SendsOk, PostingOf, SnapshotOf, Ordered, FirstOpen;
    var t := Apply(s, e);
    if t.log != s.log {
      var entry := t.log[|s.log|];
      assert t.log == s.log + [entry];
      LogKeepsSteps(s.work.attempts, s.log, entry);
      LogKeepsSends(s.log, entry);
    }
  }

  lemma StepKeepsOrder(s: State, e: Event)
    requires OrderOk(s) && FenceOk(s) && Legal(s, e)
    ensures OrderOk(Apply(s, e))
  {
    hide NextRotationAction, FirstOpen, SentBy, AfterReport, Applicable, FenceOk, Fenced, LastSending, PostingOf,
      StepsOk, SendsOk, SnapshotOf, Ordered, SetStatus, Sent, AfterRefusal, Received, Resumed, Started, FreshSteps;
    if !TouchesWork(e) && !Logs(e) {
      Frame(s, e);
    } else if !TouchesWork(e) {
      OthersKeepOrder(s, e);
    } else if e.StartAttempt? {
      StartKeepsOrder(s, e.id, e.plan, AttemptPrepared(SnapshotOf(s), s.now, |s.vitals.rounds|));
    } else if e.SendStep? {
      SendKeepsOrder(s, e.observeDeadline, e.minInterval);
    } else if e.Receive? {
      if Fenced(s, e.step, e.sending) {
        ReceiveKeepsOrder(s, e.step, e.sending, e.conflict, e.report, e.fallbackDeadline);
      }
    } else if e.Refuse? {
      if Fenced(s, e.step, e.sending) {
        RefuseKeepsOrder(s, e.step, e.sending, e.reason, e.retryAt);
      }
    } else {
      PlansKeepOrder(s, e);
    }
  }
}
