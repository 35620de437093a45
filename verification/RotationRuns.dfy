/** What holds in every run of the coordinator, whatever the environment does. */
module RotationRuns {
  import opened Wrappers
  import opened ProbeConsensus
  import opened RotationMachine
  import opened RotationCoordinator
  import opened RotationBudget
  import opened RotationFence
  import opened RotationOrder
  import opened RotationEvidence
  import opened RotationObservation
  import opened RotationAnswers

  ghost predicate Invariant(s: State) {
    BudgetOk(s.funds, s.work.attempts) && FenceOk(s) && OrderOk(s) && EvidenceOk(s) && ObservationOk(s)
  }

  lemma StepKeepsInvariant(s: State, e: Event)
    requires Invariant(s) && Legal(s, e)
    ensures Invariant(Apply(s, e))
  {
    hide Apply, Legal, BudgetOk, FenceOk, OrderOk, EvidenceOk, ObservationOk;
    StepKeepsBudget(s, e);
    StepKeepsFence(s, e);
    StepKeepsOrder(s, e);
    StepKeepsEvidence(s, e);
    StepKeepsObservation(s, e);
  }

  lemma {:induction false} RunKeepsInvariant(states: seq<State>, events: seq<Event>, i: nat)
    requires Run(states, events) && i < |states|
    ensures Invariant(states[i])
  {
    if i > 0 {
      hide Apply, Legal, Invariant;
      RunKeepsInvariant(states, events, i - 1);
      StepKeepsInvariant(states[i - 1], events[i - 1]);
    }
  }

  // ---------------------------------------------------------------- main results

  /** Attempts charged to a segment never exceed its limit, and its counter is their number. */
  lemma {:induction false} BudgetIsNeverExceeded(states: seq<State>, events: seq<Event>, i: nat, id: Id)
    requires Run(states, events) && i < |states| && id in states[i].funds.segments
        && states[i].funds.segments[id].max >= 0
    ensures var s := states[i]; var charged := ChargedIn(s.work.attempts, |s.work.attempts|, id);
            s.funds.segments[id].used == charged <= s.funds.segments[id].max
  {
    hide Run, ObservationOk, FenceOk, OrderOk, EvidenceOk;
    RunKeepsInvariant(states, events, i);
  }

  /** A step is sent only as the first open one of its plan, under an open gate, with every earlier
      step of the plan sent before and each answered "applied", without conflict and under its own
      fence, before this sending. */
  lemma StepsTakeEffectInOrder(states: seq<State>, events: seq<Event>, i: nat, p: nat) returns (m: nat)
    requires Run(states, events) && i < |states| && p < |states[i].log| && states[i].log[p].StepSent?
    ensures var log := states[i].log; var facts := log[p].facts;
            && MayDispatch(facts, log[p].at, log[p].step)
            && (forall k :: 0 <= k < log[p].step ==> facts.attempt.value.steps[k].status.Applied?)
            && forall k: nat :: k < log[p].step ==> SentBy(log, p, log[p].attempt, k)
    ensures m < i && events[m].SendStep? && |states[m].log| == p
    ensures forall k: nat :: k < states[i].log[p].step ==>
              ToldBefore(states, events, m, states[i].log[p].attempt, k, Applied)
  {
    hide Apply, Legal, Initial, ObservationOk, BudgetOk, FenceOk, EvidenceOk, ToldBefore;
    RunKeepsInvariant(states, events, i);
    assert SendOk(states[i].log, p);
    m := SendingHadItsEvent(states, events, i, p);
    var e := states[i].log[p];
    forall k: nat | k < e.step ensures ToldBefore(states, events, m, e.attempt, k, Applied) {
      assert StatusAt(states[m], e.attempt, k) == Some(Applied);
      StatusWasTold(states, events, m, e.attempt, k);
    }
  }

  /** A candidate is installed only after every step of its plan was answered "applied" so. */
  lemma InstallationIsEarned(states: seq<State>, events: seq<Event>, m: nat)
    requires Run(states, events) && m < |events| && events[m].Install?
    ensures CurrentOf(states[m].work).Some?
    ensures forall k: nat :: k < |CurrentOf(states[m].work).value.steps| ==>
              ToldBefore(states, events, m, states[m].work.current.value, k, Applied)
  {
    hide Apply, ToldBefore;
    assert Legal(states[m], events[m]);
    var a := states[m].work.current.value;
    forall k: nat | k < |CurrentOf(states[m].work).value.steps| ensures ToldBefore(states, events, m, a, k, Applied) {
      assert StatusAt(states[m], a, k) == Some(Applied);
      StatusWasTold(states, events, m, a, k);
    }
  }

  /** Between two sendings of the same step came positive word that the first one, and no other
      sending, had no effect; so a step sent n times got n - 1 such words. A step in flight, pending,
      ambiguous or abandoned is never sent again. */
  lemma NoBlindResend(states: seq<State>, events: seq<Event>, i: nat, p: nat, q: nat)
    requires Run(states, events) && i < |states| && p < q < |states[i].log|
    requires states[i].log[p].StepSent? && IsSend(states[i].log[q], states[i].log[p].attempt, states[i].log[p].step)
    ensures var log := states[i].log;
            && (exists r :: p < r < q && log[r] == NoEffect(log[p].attempt, log[p].step, p))
            && MayDispatch(log[q].facts, log[q].at, log[q].step)
            && Sendable(log[q].facts.attempt.value.steps[log[q].step].status, log[q].at)
  {
    hide Run, ObservationOk, BudgetOk, FenceOk, EvidenceOk, FirstOpen;
    RunKeepsInvariant(states, events, i);
    var log := states[i].log;
    assert SendOk(log, q);
    assert IsSend(log[p], log[p].attempt, log[p].step);
  }

  /** While the incident is not terminated, a step that was sent and has no settled answer is observed
      next, whatever the gate, the lease or the budget say, exactly when all earlier steps of its
      plan are applied; and it keeps the incident in the cloud phase. */
  lemma OutstandingIsObserved(states: seq<State>, events: seq<Event>, i: nat, k: nat)
    requires Run(states, events) && i < |states| && !states[i].terminated && Outstanding(states[i], k)
    ensures states[i].phase.CloudPhase?
    ensures Observes(states[i], k) <==> Unobstructed(states[i], k)
  {
    hide Run, ObservationOk, BudgetOk, FenceOk, OrderOk, EvidenceOk, Outstanding, Observes, Unobstructed;
    RunKeepsInvariant(states, events, i);
    ObservedExactly(states[i], k);
  }

  /** A step sent at `i` has been neither answered nor terminated before `j`. */
  ghost predicate Unanswered(states: seq<State>, events: seq<Event>, i: nat, j: nat, k: nat)
    requires |states| == |events| + 1 && j < |states|
  {
    forall m :: i < m < j ==> !Answered(states[m], events[m], k) && !events[m].Terminate?
  }

  ghost predicate Contradicted(states: seq<State>, events: seq<Event>, i: nat, j: nat, k: nat)
    requires |states| == |events| + 1 && j < |states|
  {
    exists m :: i < m < j && Contradicts(states[m], events[m], k)
  }

  /** From its sending on, a step stays outstanding and observed until it is answered or the incident
      is terminated. Only a contradicting receipt of an earlier step can hide it. */
  lemma {:induction false} SentIsObserved(states: seq<State>, events: seq<Event>, i: nat, j: nat) returns (k: nat)
    requires Run(states, events) && i < j < |states| && events[i].SendStep?
    requires CurrentOf(states[i].work).Some? ==>
        Unanswered(states, events, i, j, FirstOpen(CurrentOf(states[i].work).value.steps))
    ensures CurrentOf(states[i].work).Some? && k == FirstOpen(CurrentOf(states[i].work).value.steps)
    ensures !states[j].terminated && states[j].work.current == states[i].work.current && Outstanding(states[j], k)
    ensures !Contradicted(states, events, i, j, k) ==> Observes(states[j], k) && Unobstructed(states[j], k)
    decreases j
  {
    hide Apply, Legal, Invariant, ObservationOk, Outstanding, Observes, Unobstructed, FirstOpen, Contradicts, Answered;
    var s, e := states[j - 1], events[j - 1];
    RunKeepsInvariant(states, events, j - 1);
    RunKeepsInvariant(states, events, j);
    ObservationHolds(s);
    ObservationHolds(states[j]);
    if j == i + 1 {
      SendLeavesOutstanding(s, e);
      k := FirstOpen(CurrentOf(s.work).value.steps);
    } else {
      k := SentIsObserved(states, events, i, j - 1);
      assert !Answered(s, e, k) && !e.Terminate?;
      OutstandingStays(s, e, k);
      if !Contradicted(states, events, i, j, k) {
        assert !Contradicts(s, e, k);
        assert !Contradicted(states, events, i, j - 1, k);
      }
    }
    ObservedExactly(states[j], k);
  }

  lemma ObservationHolds(s: State)
    requires Invariant(s)
    ensures ObservationOk(s)
  {
  }

  lemma SendLeavesOutstanding(s: State, e: Event)
    requires Legal(s, e) && e.SendStep?
    ensures CurrentOf(s.work).Some? && !Apply(s, e).terminated && Apply(s, e).work.current == s.work.current
    ensures var k := FirstOpen(CurrentOf(s.work).value.steps);
        Outstanding(Apply(s, e), k) && Unobstructed(Apply(s, e), k)
  {
    hide Apply, FirstOpen, NextRotationAction;
    SendTouchesOpen(s, e);
    EndsByTermination(s, e);
  }

  /** Every write was made with the whole gate open on the facts of that moment. */
  lemma WritesHadTheGateOpen(states: seq<State>, events: seq<Event>, i: nat, p: nat)
    requires Run(states, events) && i < |states| && p < |states[i].log|
    requires !states[i].log[p].NoEffect? && !states[i].log[p].PublicationLanded?
    ensures GateOpen(states[i].log[p].facts)
  {
    hide Run, ObservationOk, BudgetOk, FenceOk, OrderOk, CounterOk, PostingsOk, Trailing;
    RunKeepsInvariant(states, events, i);
    assert Grounded(states[i].log, p, states[i].vitals.rounds);
  }

  /** Cleanup of the old address waits for the publication of the current candidate's version to
      have been sent, to have landed, and for the grace period after that. */
  lemma CleanupFollowsPublication(states: seq<State>, events: seq<Event>, i: nat, p: nat)
    requires Run(states, events) && i < |states| && p < |states[i].log| && states[i].log[p].CleanupSent?
    ensures var log := states[i].log; var facts := log[p].facts;
            && facts.candidate.Some?
            && exists sent, landed ::
              && 0 <= sent < landed < p
              && IsPublication(log[sent], facts.candidate.value.addressVersion)
              && log[landed].PublicationLanded? && log[landed].addressVersion == facts.candidate.value.addressVersion
              && log[landed].at + log[landed].grace <= log[p].at
  {
    hide Run, ObservationOk, BudgetOk, FenceOk, OrderOk, CounterOk, PostingsOk, Trailing, IsPublication;
    RunKeepsInvariant(states, events, i);
    var log, rounds := states[i].log, states[i].vitals.rounds;
    var facts := log[p].facts;
    assert Grounded(log, p, rounds);
    var landed :| 0 <= landed < p && IsLanding(log[landed], facts.publication.addressVersion, facts.cleanup.notBefore);
    assert Grounded(log, landed, rounds);
    var sent :| 0 <= sent < landed && IsPublication(log[sent], log[landed].addressVersion);
  }

  /** A candidate is given up only when the last `failureThreshold` applied rounds, all of its
      own address version and probe configuration, were each decided as failures by their votes.
      Elapsed windows, missing votes and unknown rounds never suffice. */
  lemma DiscardIsProven(states: seq<State>, events: seq<Event>, i: nat, p: nat)
    requires Run(states, events) && i < |states| && p < |states[i].log|
    requires states[i].log[p].AttemptPrepared? && states[i].log[p].facts.phase.CandidatePhase?
    ensures var e, rounds := states[i].log[p], states[i].vitals.rounds;
            && e.facts.candidate.Some?
            && var c := e.facts.candidate.value;
            && 1 <= c.failureThreshold <= e.rounds <= |rounds|
            && forall r :: e.rounds - c.failureThreshold <= r < e.rounds ==>
                 ProvenFailure(rounds[r], c.addressVersion, c.probeConfig)
  {
    hide Run, ObservationOk, BudgetOk, FenceOk, OrderOk, CounterOk, PostingsOk, ProvenFailure;
    RunKeepsInvariant(states, events, i);
    assert Grounded(states[i].log, p, states[i].vitals.rounds);
  }

  /** What such a round shows: enough distinct members voted failure, or the specified one did. */
  lemma FailureIsVoted(round: FinalRound, addressVersion: int, probeConfig: int)
    requires ProvenFailure(round, addressVersion, probeConfig)
    ensures if round.policy.mode.Specified?
        then round.policy.specifiedProbe.value in Voters(round.members, round.votes, Failure)
            else |Voters(round.members, round.votes, Failure)| >= RequiredFailureVotes(round.policy, |round.members|)
    ensures |Voters(round.members, round.votes, Failure)| + |Voters(round.members, round.votes, Success)|
            >= round.policy.minimumValid
  {
    TotalIsCardinality(round.members, round.votes, Failure);
    TotalIsCardinality(round.members, round.votes, Success);
  }
}
