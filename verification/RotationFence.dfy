/** The fence of a dispatch names its call: no two sendings of an incident bear the same lease
    revision, so an answer that passes the fence is about the last sending of its step. */
module RotationFence {
  import opened RotationMachine
  import opened RotationCoordinator
  import opened RotationBudget

  ghost predicate FencesGrow(log: seq<Entry>) {
    forall p, q :: 0 <= p < q < |log| && log[p].StepSent? && log[q].StepSent? ==>
      log[p].facts.lease.revision < log[q].facts.lease.revision
  }

  /** Sendings bear claims already made, and not the present one unless it is spent. */
  ghost predicate ClaimsCover(log: seq<Entry>, claim: Claim) {
    forall p :: 0 <= p < |log| && log[p].StepSent? ==>
      log[p].facts.lease.revision < claim.revision + if claim.spent then 1 else 0
  }

  ghost predicate FenceOk(s: State) {
    && (s.access.lease.held ==> s.access.lease.revision == s.claim.revision)
    && FencesGrow(s.log) && ClaimsCover(s.log, s.claim)
  }

  lemma SendKeepsFence(s: State, e: Event)
    requires FenceOk(s) && e.SendStep? && Legal(s, e)
    ensures FenceOk(Apply(s, e))
  {
    hide NextRotationAction, FirstOpen, SetStatus, BudgetOf, EvidenceOf, PostingOf, Sendable, HasBudget;
    SendIsAfforded(s);
    DispatchExactly(SnapshotOf(s), s.now);
  }

  /** Claims and losses of the lease; every other event leaves the lease and the claim alone. */
  lemma LeaseMoves(s: State, e: Event)
    requires Legal(s, e) && !e.SendStep?
    ensures var t := Apply(s, e);
            && (t.access.lease.held ==> (s.access.lease.held && t.access.lease == s.access.lease && t.claim == s.claim)
                                        || t.access.lease.revision == t.claim.revision)
            && (t.claim == s.claim || (t.claim.revision > s.claim.revision && !t.claim.spent))
            && forall p :: |s.log| <= p < |t.log| ==> !t.log[p].StepSent?
  {
    hide NextRotationAction, FirstOpen, SentBy, AfterReport, Applicable, PostingOf, SnapshotOf, Ordered, Rewritten,
      SetStatus, Spend, Answers, Fenced, LastSending, FreshSteps, WithStep, Started, MidPlan, Widen, Blank, Expired,
      WithSteps, SetCharge, Closed;
  }

  lemma StepKeepsFence(s: State, e: Event)
    requires FenceOk(s) && Legal(s, e)
    ensures FenceOk(Apply(s, e))
  {
    hide Apply, Legal;
    if e.SendStep? {
      SendKeepsFence(s, e);
    } else {
      Frame(s, e);
      LeaseMoves(s, e);
    }
  }

  /** An answer that passes the fence answers the step's last sending. */
  lemma {:induction false} FencedAnswersLast(s: State, k: nat, sending: nat)
    requires FenceOk(s) && Answers(s, k, sending)
    ensures Fenced(s, k, sending) <==> sending == LastSending(s.log, s.work.current.value, k)
  {
    var last := LastSending(s.log, s.work.current.value, k);
    assert IsSend(s.log[sending], s.work.current.value, k);
    assert last >= 0 && IsSend(s.log[last], s.work.current.value, k);
  }
}
