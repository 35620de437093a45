/** Every event keeps the budget: a segment has paid for exactly its charged attempts. */
module RotationBudget {
  import opened Wrappers
  import opened ProbeConsensus
  import H = HealthState
  import opened RotationMachine
  import opened RotationCoordinator

  // ---------------------------------------------------------------- frames

  predicate TouchesWork(e: Event) {
    e.StartAttempt? || e.SendStep? || e.Receive? || e.Refuse? || e.Recover? || e.Resume? || e.Terminate?
  }

  predicate TouchesFunds(e: Event) {
    e.SendStep? || e.Refuse? || e.Resume? || e.LatchExhausted? || e.Install?
  }

  predicate TouchesPostings(e: Event) {
    e.AuthorizeCleanup? || e.StartPublication? || e.BeginPublishing? || e.EndPublishing? || e.SendCleanup?
        || e.ReportCleanup?
  }

  predicate TouchesVitals(e: Event) {
    e.Rearm? || e.ExpireEvidence? || e.CloseRound? || e.Install?
  }

  predicate Logs(e: Event) {
    e.StartAttempt? || e.SendStep? || e.Receive? || e.Refuse? || e.StartPublication? || e.EndPublishing?
        || e.SendCleanup?
  }

  lemma WorkAndFundsUntouched(s: State, e: Event)
    requires Legal(s, e)
    ensures var t := Apply(s, e);
            (!TouchesWork(e) ==> t.work == s.work) && (!TouchesFunds(e) ==> t.funds == s.funds)
  {
    hide NextRotationAction, FirstOpen, SentBy, MayDispatch, AfterReport, Applicable, Recoverable, PostingOf,
      SnapshotOf, Ordered, Rewritten, SetStatus, Spend, Answers, Fenced, LastSending, FreshSteps, WithStep, Started,
      MidPlan, Widen, Blank, Expired, WithSteps, SetCharge, DecisionOf, H.AdvanceRoundHealth, Decidable, Conclusive,
      Unapplied, GateOpen, Sendable, HasBudget, Closed;
  }

  lemma RestUntouched(s: State, e: Event)
    requires Legal(s, e)
    ensures var t := Apply(s, e);
            (!TouchesPostings(e) ==> t.postings == s.postings) && (!TouchesVitals(e) ==> t.vitals == s.vitals)
  {
    hide NextRotationAction, FirstOpen, SentBy, MayDispatch, AfterReport, Applicable, Recoverable, PostingOf,
      SnapshotOf, Ordered, Rewritten, SetStatus, Spend, Answers, Fenced, LastSending, FreshSteps, WithStep, Started,
      MidPlan, Widen, Blank, Expired, WithSteps, SetCharge, DecisionOf, H.AdvanceRoundHealth, Decidable, Conclusive,
      Unapplied, GateOpen, Sendable, HasBudget, Closed;
  }

  lemma LogGrows(s: State, e: Event)
    requires Legal(s, e)
    ensures var t := Apply(s, e);
            && (!Logs(e) ==> t.log == s.log)
            && |s.log| <= |t.log| <= |s.log| + 1 && forall p :: 0 <= p < |s.log| ==> t.log[p] == s.log[p]
  {
    hide NextRotationAction, FirstOpen, SentBy, MayDispatch, AfterReport, Applicable, Recoverable, PostingOf,
      SnapshotOf, Ordered, Rewritten, SetStatus, Spend, Answers, Fenced, LastSending, FreshSteps, WithStep, Started,
      MidPlan, Widen, Blank, Expired, WithSteps, SetCharge, DecisionOf, H.AdvanceRoundHealth, Decidable, Conclusive,
      Unapplied, GateOpen, Sendable, HasBudget, Closed;
  }

  lemma RoundsGrow(s: State, e: Event)
    requires Legal(s, e)
    ensures var before, after := s.vitals.rounds, Apply(s, e).vitals.rounds;
            |before| <= |after| && forall p :: 0 <= p < |before| ==> after[p] == before[p]
  {
    hide Ordered, SnapshotOf, PostingOf, DecisionOf, H.AdvanceRoundHealth;
    if !TouchesVitals(e) {
      hide Apply;
      RestUntouched(s, e);
    }
  }

  /** Each event leaves every other part of the state alone; log and rounds only grow. */
  lemma Frame(s: State, e: Event)
    requires Legal(s, e)
    ensures var t := Apply(s, e);
            && (!TouchesWork(e) ==> t.work == s.work) && (!TouchesFunds(e) ==> t.funds == s.funds)
            && (!TouchesPostings(e) ==> t.postings == s.postings) && (!TouchesVitals(e) ==> t.vitals == s.vitals)
            && (!Logs(e) ==> t.log == s.log)
            && |s.log| <= |t.log| <= |s.log| + 1 && (forall p :: 0 <= p < |s.log| ==> t.log[p] == s.log[p])
            && |s.vitals.rounds| <= |t.vitals.rounds|
            && (forall p :: 0 <= p < |s.vitals.rounds| ==> t.vitals.rounds[p] == s.vitals.rounds[p])
  {
    hide Apply, Legal;
    WorkAndFundsUntouched(s, e);
    RestUntouched(s, e);
    LogGrows(s, e);
    RoundsGrow(s, e);
  }

  // ---------------------------------------------------------------- budget

  /** Charged attempts of a segment among the first `n`. */
  function ChargedIn(attempts: seq<Attempt>, n: nat, segment: Id): nat
    requires n <= |attempts|
  {
    if n == 0 then 0
    else ChargedIn(attempts, n - 1, segment) + if attempts[n - 1].charged && attempts[n - 1].segment == segment then 1
        else 0
  }

  predicate BudgetOk(funds: Funds, attempts: seq<Attempt>) {
    && funds.segment in funds.segments
    && (forall a :: 0 <= a < |attempts| ==> attempts[a].segment in funds.segments)
    && (funds.pending.Some? ==> funds.pending.value in funds.segments)
    && forall id :: id in funds.segments ==>
         && funds.segments[id].used == ChargedIn(attempts, |attempts|, id)
         && (funds.segments[id].used <= funds.segments[id].max || funds.segments[id].used == 0)
  }

  lemma {:induction false} SameCharges(a: seq<Attempt>, b: seq<Attempt>, n: nat, id: Id)
    requires n <= |a| && n <= |b|
    requires forall i :: 0 <= i < n ==> a[i].charged == b[i].charged && a[i].segment == b[i].segment
    ensures ChargedIn(a, n, id) == ChargedIn(b, n, id)
  {
    if n > 0 {
      SameCharges(a, b, n - 1, id);
    }
  }

  /** Flipping one attempt's charge moves its own segment's count by one and no other's. */
  lemma {:induction false} OneCharge(a: seq<Attempt>, k: nat, attempt: Attempt, n: nat, id: Id)
    requires k < n <= |a| && attempt.segment == a[k].segment
    ensures ChargedIn(a[k := attempt], n, id)
            == ChargedIn(a, n, id)
               + if id != attempt.segment || attempt.charged == a[k].charged then 0 else if attempt.charged then 1
                   else -1
  {
    if k < n - 1 {
      OneCharge(a, k, attempt, n - 1, id);
    } else {
      SameCharges(a, a[k := attempt], n - 1, id);
    }
  }

  lemma {:induction false} NoCharges(attempts: seq<Attempt>, n: nat, id: Id)
    requires n <= |attempts| && forall a :: 0 <= a < |attempts| ==> attempts[a].segment != id
    ensures ChargedIn(attempts, n, id) == 0
  {
    if n > 0 {
      NoCharges(attempts, n - 1, id);
    }
  }

  /** Rewriting steps leaves every charge alone. */
  lemma SameBudget(funds: Funds, a: seq<Attempt>, b: seq<Attempt>)
    requires BudgetOk(funds, a) && |a| == |b|
    requires forall i :: 0 <= i < |a| ==> a[i].charged == b[i].charged && a[i].segment == b[i].segment
    ensures BudgetOk(funds, b)
  {
    forall id | id in funds.segments ensures ChargedIn(b, |b|, id) == ChargedIn(a, |a|, id) {
      SameCharges(a, b, |a|, id);
    }
  }

  /** Moving a charge and the segment's counter together. */
  lemma MoveCharge(funds: Funds, work: Work, charged: bool, at: int)
    requires BudgetOk(funds, work.attempts) && CurrentOf(work).Some? && CurrentOf(work).value.charged != charged
    requires charged ==>
               var segment := funds.segments[CurrentOf(work).value.segment];
               segment.used < segment.max
    ensures BudgetOk(Spend(funds, CurrentOf(work).value.segment, if charged then 1 else -1, at),
        SetCharge(work, charged).attempts)
  {
    var c := work.current.value;
    var attempt := work.attempts[c].(charged := charged);
    forall id | id in funds.segments
      ensures ChargedIn(work.attempts[c := attempt], |work.attempts|, id)
              == ChargedIn(work.attempts, |work.attempts|, id) + if id != attempt.segment then 0 else if charged then 1
                  else -1
    {
      OneCharge(work.attempts, c, attempt, |work.attempts|, id);
    }
  }

  lemma StartKeepsBudget(funds: Funds, work: Work, id: Id, plan: seq<Id>)
    requires BudgetOk(funds, work.attempts)
    ensures BudgetOk(funds, Started(work, id, funds.segment, plan).attempts)
  {
    var after := Started(work, id, funds.segment, plan).attempts;
    forall x | x in funds.segments ensures ChargedIn(after, |after|, x) ==
        ChargedIn(work.attempts, |work.attempts|, x) {
      SameCharges(work.attempts, after, |work.attempts|, x);
    }
  }

  lemma WidenKeepsBudget(funds: Funds, attempts: seq<Attempt>, id: Id, max: nat, midPlan: bool)
    requires BudgetOk(funds, attempts) && id !in funds.segments
    ensures BudgetOk(Widen(funds, id, max, midPlan), attempts)
  {
    NoCharges(attempts, |attempts|, id);
  }

  lemma SendIsAfforded(s: State)
    requires Ordered(s).CloudStep? && s.funds.segment in s.funds.segments
    ensures CurrentOf(s.work).Some? && CurrentOf(s.work).value.segment == s.funds.segment
    ensures CurrentOf(s.work).value.charged
            || s.funds.segments[s.funds.segment].used < s.funds.segments[s.funds.segment].max
    ensures FirstOpen(CurrentOf(s.work).value.steps) < |CurrentOf(s.work).value.steps|
  {
    hide NextRotationAction, FirstOpen;
    DispatchExactly(SnapshotOf(s), s.now);
  }

  lemma SendKeepsBudget(s: State, observeDeadline: int, minInterval: nat)
    requires BudgetOk(s.funds, s.work.attempts) && Ordered(s).CloudStep? && s.funds.segment in s.funds.segments
    ensures CurrentOf(s.work).Some? && FirstOpen(CurrentOf(s.work).value.steps) < |CurrentOf(s.work).value.steps|
    ensures var t := Sent(s, observeDeadline, minInterval); BudgetOk(t.funds, t.work.attempts)
  {
    hide NextRotationAction, FirstOpen, Ordered, SnapshotOf, SetStatus, ChargedIn, BudgetOk;
    SendIsAfforded(s);
    if !CurrentOf(s.work).value.charged {
      MoveCharge(s.funds, s.work, true, s.now + minInterval);
    }
    SameBudget(Charge(s, minInterval).funds, Charge(s, minInterval).work.attempts,
        Sent(s, observeDeadline, minInterval).work.attempts);
  }

  lemma RefuseKeepsBudget(s: State, k: nat, sending: nat, reason: Rejection, retryAt: Option<int>)
    requires BudgetOk(s.funds, s.work.attempts) && CurrentOf(s.work).Some? && k < |CurrentOf(s.work).value.steps|
    ensures var t := AfterRefusal(s, k, sending, reason, retryAt); BudgetOk(t.funds, t.work.attempts)
  {
    hide SetStatus, ChargedIn, BudgetOk;
    var released := if k == 0 then Refund(s) else s;
    if k == 0 && CurrentOf(s.work).value.charged && CurrentOf(s.work).value.segment in s.funds.segments {
      MoveCharge(s.funds, s.work, false, s.now);
    }
    SameBudget(released.funds, released.work.attempts, AfterRefusal(s, k, sending, reason, retryAt).work.attempts);
  }

  lemma FundsKeepBudget(s: State, e: Event)
    requires BudgetOk(s.funds, s.work.attempts) && Legal(s, e) && (e.LatchExhausted? || e.Install?)
    ensures BudgetOk(Apply(s, e).funds, Apply(s, e).work.attempts)
  {
    hide ChargedIn, Ordered, Blank;
  }

  lemma ReportsKeepBudget(s: State, e: Event)
    requires BudgetOk(s.funds, s.work.attempts) && Legal(s, e) && (e.Receive? || e.Recover? || e.Terminate?)
    ensures BudgetOk(Apply(s, e).funds, Apply(s, e).work.attempts)
  {
    hide ChargedIn, BudgetOk, AfterReport, Fenced, LastSending, Rewritten, SetStatus;
    SameBudget(s.funds, s.work.attempts, Apply(s, e).work.attempts);
  }

  lemma ResumeKeepsBudget(s: State, id: Id, max: nat)
    requires BudgetOk(s.funds, s.work.attempts) && id !in s.funds.segments
    ensures BudgetOk(Resumed(s, id, max).funds, Resumed(s, id, max).work.attempts)
  {
    hide ChargedIn, BudgetOk, Rewritten, Widen;
    WidenKeepsBudget(s.funds, s.work.attempts, id, max, MidPlan(s));
    SameBudget(Resumed(s, id, max).funds, s.work.attempts, Resumed(s, id, max).work.attempts);
  }

  lemma StepKeepsBudget(s: State, e: Event)
    requires BudgetOk(s.funds, s.work.attempts) && Legal(s, e)
    ensures BudgetOk(Apply(s, e).funds, Apply(s, e).work.attempts)
  {
    hide NextRotationAction, FirstOpen, SentBy, AfterReport, Applicable, ChargedIn, PostingOf, BudgetOk, Fenced,
      LastSending, SnapshotOf, Ordered, Rewritten, SetStatus, Sent, AfterRefusal, Resumed, Started, FreshSteps;
    if !TouchesWork(e) && !TouchesFunds(e) {
      Frame(s, e);
    } else if e.LatchExhausted? || e.Install? {
      FundsKeepBudget(s, e);
    } else if e.Receive? || e.Recover? || e.Terminate? {
      ReportsKeepBudget(s, e);
    } else if e.StartAttempt? {
      StartKeepsBudget(s.funds, s.work, e.id, e.plan);
    } else if e.SendStep? {
      SendKeepsBudget(s, e.observeDeadline, e.minInterval);
    } else if e.Refuse? {
      if Fenced(s, e.step, e.sending) {
        RefuseKeepsBudget(s, e.step, e.sending, e.reason, e.retryAt);
      }
    } else {
      ResumeKeepsBudget(s, e.segment, e.max);
    }
  }
}
