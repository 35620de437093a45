/** What each event of the coordinator achieves: which order it makes possible, and what it ends. */
module RotationOutcomes {
  import opened Wrappers
  import opened ProbeConsensus
  import H = HealthState
  import opened RotationMachine
  import opened RotationCoordinator
  import opened RotationBudget
  import opened RotationObservation

  // ---------------------------------------------------------------- phases

  /** The phase moves with five events and no other. */
  lemma PhaseMoves(s: State, e: Event)
    requires Legal(s, e)
    ensures Apply(s, e).phase ==
            match e
            case StartAttempt(_, _) => CloudPhase
            case Install(_, _, _, _) => CandidatePhase
            case StartPublication => PublishPhase
            case EnterCleanup => CleanupPhase
            case Finish => CompletePhase
            case _ => s.phase
  {
    hide NextRotationAction, FirstOpen, AfterReport, Applicable, PostingOf, SnapshotOf, Rewritten, SetStatus, Spend,
      Answers, Fenced, LastSending, FreshSteps, WithStep, Started, Widen, Blank, Expired, WithSteps, SetCharge, Closed;
  }

  lemma CompleteStays(s: State, e: Event)
    requires Legal(s, e) && s.phase.CompletePhase?
    ensures Apply(s, e).phase.CompletePhase?
  {
    hide Apply;
    PhaseMoves(s, e);
  }

  /** A finished incident stays finished and orders nothing else. */
  lemma {:induction false} FinishIsFinal(states: seq<State>, events: seq<Event>, i: nat, j: nat)
    requires Run(states, events) && i < j < |states| && events[i].Finish?
    ensures states[j].phase.CompletePhase?
    ensures Ordered(states[j]) == if states[j].terminated then Wait(InstanceBusy, None) else Complete
    decreases j
  {
    hide Apply, Legal;
    if j == i + 1 {
      PhaseMoves(states[i], events[i]);
    } else {
      FinishIsFinal(states, events, i, j - 1);
      CompleteStays(states[j - 1], events[j - 1]);
    }
  }

  // ---------------------------------------------------------------- termination

  predicate Dead(status: Status) {
    status.Applied? || status.Ambiguous? || status.Abandoned?
  }

  predicate StepsDead(work: Work) {
    CurrentOf(work).Some? ==>
      forall k :: 0 <= k < |CurrentOf(work).value.steps| ==> Dead(CurrentOf(work).value.steps[k].status)
  }

  /** Rewriting touches the statuses of the picked steps of the current attempt. */
  lemma RewrittenSteps(work: Work, which: Status -> bool, status: Status)
    requires CurrentOf(work).Some?
    ensures var after := CurrentOf(WithSteps(work, which, status)); var before := CurrentOf(work).value;
            && after.Some? && |after.value.steps| == |before.steps|
            && after.value.(steps := []) == before.(steps := [])
            && forall k :: 0 <= k < |before.steps| ==>
                 after.value.steps[k] ==
                 if which(before.steps[k].status) then before.steps[k].(status := status) else before.steps[k]
  {
  }

  lemma TerminationAbandons(s: State)
    ensures var t := Apply(s, Terminate);
            && t.terminated && StepsDead(t.work) && t.log == s.log && t.phase == s.phase
            && (CurrentOf(s.work).Some? ==>
                  && CurrentOf(t.work).Some?
                  && |CurrentOf(t.work).value.steps| == |CurrentOf(s.work).value.steps|
                  && forall k :: 0 <= k < |CurrentOf(s.work).value.steps| ==>
                       CurrentOf(t.work).value.steps[k].status ==
                       if CurrentOf(s.work).value.steps[k].status.Applied? then Applied else Abandoned)
  {
    if CurrentOf(s.work).Some? {
      RewrittenSteps(s.work, Unapplied, Abandoned);
      assert forall status :: Unapplied(status) <==> !status.Applied?;
    }
  }

  /** The entry is the start of something: an attempt, a call, a publication or a cleanup. */
  predicate Starts(e: Entry) {
    e.AttemptPrepared? || e.StepSent? || e.PublicationSent? || e.CleanupSent?
  }

  lemma DeadStays(s: State, e: Event)
    requires Legal(s, e) && s.terminated && StepsDead(s.work)
    ensures var t := Apply(s, e);
            && t.terminated && StepsDead(t.work)
            && (|t.log| > |s.log| ==> !Starts(t.log[|s.log|]))
  {
    hide FirstOpen, PostingOf, SnapshotOf, Fenced, LastSending, NextRotationAction, Closed, Applicable, IsSend;
  }

  /** Termination ends everything: from then on nothing is started, ordered or sent, and every step of
      the last plan is applied, in doubt or abandoned. */
  lemma {:induction false} TerminationIsFinal(states: seq<State>, events: seq<Event>, i: nat, j: nat)
    requires Run(states, events) && i < j < |states| && events[i].Terminate?
    ensures states[j].terminated && StepsDead(states[j].work) && Ordered(states[j]) == Wait(InstanceBusy, None)
    ensures |states[i].log| <= |states[j].log|
    ensures forall p :: |states[i].log| <= p < |states[j].log| ==> !Starts(states[j].log[p])
    decreases j
  {
    hide Apply, Legal, StepsDead, Starts;
    if j == i + 1 {
      TerminationAbandons(states[i]);
    } else {
      TerminationIsFinal(states, events, i, j - 1);
      DeadStays(states[j - 1], events[j - 1]);
      Frame(states[j - 1], events[j - 1]);
    }
  }

  // ---------------------------------------------------------------- exhaustion

  lemma SegmentsStay(s: State, e: Event, id: Id)
    requires Legal(s, e) && id in s.funds.segments && s.funds.segments[id].exhausted
    ensures id in Apply(s, e).funds.segments && Apply(s, e).funds.segments[id].exhausted
  {
    hide Apply;
    if !TouchesFunds(e) {
      Frame(s, e);
    } else {
      FundsMove(s, e, id);
    }
  }

  lemma FundsMove(s: State, e: Event, id: Id)
    requires Legal(s, e) && TouchesFunds(e) && id in s.funds.segments && s.funds.segments[id].exhausted
    ensures id in Apply(s, e).funds.segments && Apply(s, e).funds.segments[id].exhausted
  {
    hide FirstOpen, PostingOf, SnapshotOf, Fenced, LastSending, NextRotationAction, WithStep, IsSend, WithSteps;
  }

  /** A segment found exhausted stays so, whatever is refunded later: only a resume opens another. */
  lemma {:induction false} ExhaustionLatches(states: seq<State>, events: seq<Event>, i: nat, j: nat)
    requires Run(states, events) && i < j < |states| && events[i].LatchExhausted?
    ensures var id := states[i].funds.segment; id in states[j].funds.segments && states[j].funds.segments[id].exhausted
    decreases j
  {
    if j == i + 1 {
      hide Ordered;
      assert Legal(states[i], events[i]);
    } else {
      hide Apply, Legal;
      ExhaustionLatches(states, events, i, j - 1);
      SegmentsStay(states[j - 1], events[j - 1], states[i].funds.segment);
    }
  }

  // ---------------------------------------------------------------- recovery and resume

  /** The gate as seen by the decision: everything but the revisions and the budget. */
  predicate MayWrite(s: State) {
    && s.access.authorization == Authorization(true, true, true, true, false, false)
    && s.access.lease.held && s.access.lease.revision == s.access.lease.expectedRevision
    && !PostingOf(s).status.Publishing?
  }

  /** Recovery prepares again what certainly had no effect and may yet succeed, and nothing else. */
  lemma RecoverExactly(s: State, k: nat)
    requires Legal(s, Recover) && CurrentOf(s.work).Some? && k < |CurrentOf(s.work).value.steps|
    ensures var t := Apply(s, Recover); var before := CurrentOf(s.work).value.steps[k];
            && CurrentOf(t.work).Some? && k < |CurrentOf(t.work).value.steps|
            && var after := CurrentOf(t.work).value.steps[k];
               && after.id == before.id
               && match before.status
                  case NotApplied => after.status == Prepared
                  case Rejected(RateLimited, _) => after.status == Prepared
                  case Rejected(TemporaryCloudError, _) => after.status == Prepared
                  case Rejected(UnknownCloudError, _) => after.status == Prepared
                  case _ => after.status == before.status
  {
    RewrittenSteps(s.work, Recoverable, Prepared);
    var before := CurrentOf(s.work).value.steps[k];
    assert Recoverable(before.status) ==> CurrentOf(Apply(s, Recover).work).value.steps[k].status == Prepared;
  }

  /** A plan is paid from the segment in force while it is carried out. */
  predicate PaysFromSegment(s: State) {
    s.phase.CloudPhase? && CurrentOf(s.work).Some? ==> CurrentOf(s.work).value.segment == s.funds.segment
  }

  lemma AnswersKeepSegment(s: State, e: Event)
    requires Legal(s, e) && PaysFromSegment(s) && (e.SendStep? || e.Receive? || e.Refuse?)
    ensures PaysFromSegment(Apply(s, e))
  {
    hide FirstOpen, PostingOf, SnapshotOf, Fenced, LastSending, NextRotationAction, IsSend, AfterReport, SetStatus;
    if e.SendStep? {
      SendIsAfforded(s);
    }
  }

  lemma PlansKeepSegment(s: State, e: Event)
    requires Legal(s, e) && PaysFromSegment(s)
    requires e.StartAttempt? || e.Recover? || e.Resume? || e.Terminate? || e.LatchExhausted? || e.Install?
    ensures PaysFromSegment(Apply(s, e))
  {
    hide PostingOf, SnapshotOf, NextRotationAction, FreshSteps, Rewritten;
  }

  lemma StepKeepsSegment(s: State, e: Event)
    requires Legal(s, e) && PaysFromSegment(s)
    ensures PaysFromSegment(Apply(s, e))
  {
    hide Apply, Legal;
    if e.SendStep? || e.Receive? || e.Refuse? {
      AnswersKeepSegment(s, e);
    } else if TouchesWork(e) || TouchesFunds(e) {
      PlansKeepSegment(s, e);
    } else {
      Frame(s, e);
      PhaseMoves(s, e);
    }
  }

  lemma {:induction false} PlansPayFromTheSegment(states: seq<State>, events: seq<Event>, i: nat)
    requires Run(states, events) && i < |states|
    ensures PaysFromSegment(states[i])
  {
    if i > 0 {
      hide Apply, Legal, PaysFromSegment;
      PlansPayFromTheSegment(states, events, i - 1);
      StepKeepsSegment(states[i - 1], events[i - 1]);
    } else {
      hide Apply, Legal;
    }
  }

  /** What a recovery or a resume leaves of the charged plan goes on at its first open step. */
  lemma PreparedPlanGoesOn(t: State, k: nat)
    requires !t.terminated && t.phase.CloudPhase? && MayWrite(t) && t.access.revisions == t.access.expected
    requires CurrentOf(t.work).Some? && CurrentOf(t.work).value.charged && PaysFromSegment(t)
    requires k < |CurrentOf(t.work).value.steps| && CurrentOf(t.work).value.steps[k].status.Prepared?
    requires forall i :: 0 <= i < k ==> CurrentOf(t.work).value.steps[i].status.Applied?
    ensures Ordered(t) == CloudStep(CurrentOf(t.work).value.id, CurrentOf(t.work).value.steps[k].id)
  {
    hide NextRotationAction, EvidenceOf;
    FirstOpenIsUnique(CurrentOf(t.work).value.steps, k);
    DispatchExactly(SnapshotOf(t), t.now);
  }

  /** A resume takes the present revisions as the expected ones and opens a fresh segment. A charged
      plan goes on under the segment that paid for it, its conclusively failed steps prepared again;
      any other plan is dropped, and the next attempt is the new segment's. */
  lemma ResumeOpensAnew(s: State, id: Id, max: nat)
    requires Legal(s, Resume(id, max))
    ensures var t := Apply(s, Resume(id, max));
            && t.access == s.access.(expected := s.access.revisions) && t.phase == s.phase
            && t.funds.segments == s.funds.segments[id := Segment(0, max, false)]
            && t.funds.nextAttemptAt == s.funds.nextAttemptAt
            && (if MidPlan(s) then t.funds.segment == s.funds.segment && t.funds.pending == Some(id)
                else t.funds.segment == id && t.funds.pending == None)
            && (s.phase.CloudPhase? && !MidPlan(s) ==> t.work.current == None)
            && (MidPlan(s) ==>
                  && CurrentOf(t.work).Some?
                  && |CurrentOf(t.work).value.steps| == |CurrentOf(s.work).value.steps|
                  && CurrentOf(t.work).value.(steps := []) == CurrentOf(s.work).value.(steps := [])
                  && forall k :: 0 <= k < |CurrentOf(s.work).value.steps| ==>
                       CurrentOf(t.work).value.steps[k] == CurrentOf(s.work).value.steps[k].(status :=
                         if CurrentOf(s.work).value.steps[k].status.Applied? then Applied else Prepared))
  {
    hide PostingOf, SnapshotOf, NextRotationAction, WithSteps;
    if MidPlan(s) {
      RewrittenSteps(s.work, Conclusive, Prepared);
      forall k | 0 <= k < |CurrentOf(s.work).value.steps|
        ensures !CurrentOf(s.work).value.steps[k].status.Applied? ==>
                  Conclusive(CurrentOf(s.work).value.steps[k].status)
                      || CurrentOf(s.work).value.steps[k].status.Prepared?
      {
        assert Settled(CurrentOf(s.work).value.steps[k].status);
      }
    }
  }

  /** After a resume with authorization and lease in order the rotation goes on: with the first step of
      its plan that is not applied, or with a new attempt in the new segment. */
  lemma ResumeGetsGoing(states: seq<State>, events: seq<Event>, i: nat, k: nat)
    requires Run(states, events) && i < |events| && events[i].Resume? && states[i].phase.CloudPhase?
    requires MayWrite(states[i + 1])
    ensures var s, t := states[i], states[i + 1];
            && (!MidPlan(s) && events[i].max >= 1 && s.funds.nextAttemptAt <= s.now ==>
                  Ordered(t) == PrepareAttempt(events[i].segment))
            && (MidPlan(s) && k < |CurrentOf(s.work).value.steps| && FirstOpen(CurrentOf(s.work).value.steps) == k ==>
                  Ordered(t) == CloudStep(CurrentOf(s.work).value.id, CurrentOf(s.work).value.steps[k].id))
  {
    var s, t := states[i], states[i + 1];
    PlansPayFromTheSegment(states, events, i);
    PlansPayFromTheSegment(states, events, i + 1);
    assert Legal(s, events[i]) && t == Apply(s, events[i]);
    ResumeOpensAnew(s, events[i].segment, events[i].max);
    hide Apply, Legal, Resumed, WithSteps, MayWrite;
    assert t.now == s.now && !t.terminated by { ResumeKeepsClock(s, events[i]); }
    if MidPlan(s) {
      if k < |CurrentOf(s.work).value.steps| && FirstOpen(CurrentOf(s.work).value.steps) == k {
        PreparedPlanGoesOn(t, k);
      }
    } else if events[i].max >= 1 && s.funds.nextAttemptAt <= s.now {
      FreshSegmentPrepares(t, events[i].segment, events[i].max);
    }
  }

  lemma ResumeKeepsClock(s: State, e: Event)
    requires Legal(s, e) && e.Resume?
    ensures Apply(s, e).now == s.now && !Apply(s, e).terminated
  {
  }

  lemma FreshSegmentPrepares(t: State, id: Id, max: nat)
    requires !t.terminated && t.phase.CloudPhase? && MayWrite(t) && t.access.revisions == t.access.expected
    requires t.work.current == None && t.funds.segment == id && id in t.funds.segments
    requires t.funds.segments[id] == Segment(0, max, false) && max >= 1 && t.funds.nextAttemptAt <= t.now
    ensures Ordered(t) == PrepareAttempt(id)
  {
    hide NextRotationAction, EvidenceOf, FirstOpen;
    PrepareExactly(SnapshotOf(t), t.now);
  }

  // ---------------------------------------------------------------- a new candidate

  /** An installed candidate starts with a version of its own and no evidence, and the segment that
      waited for the plan's end takes over. With the gate open it is probed at once, unless the budget
      is gone; it is never published or given up on what was measured before. */
  lemma InstalledStartsFresh(s: State, e: Event)
    requires Legal(s, e) && e.Install?
    ensures var t, version := Apply(s, e), s.target.version + 1;
            && t.target.version == version && t.access.expected.address == version
            && t.access.revisions.address == version
            && t.target.candidate == Some(Candidate(version, e.probeConfig, e.successThreshold, e.failureThreshold,
                                                    e.windowEndsAt, s.now, None))
            && t.vitals.record.addressVersion == version && t.vitals.record.probeConfig == e.probeConfig
            && t.vitals.record.health.successes == 0 && t.vitals.record.health.failures == 0
            && t.vitals.record.expiresAt == None && t.vitals.rounds == s.vitals.rounds
            && t.funds.pending == None && t.funds.segments == s.funds.segments
            && t.funds.segment == (if s.funds.pending.Some? then s.funds.pending.value else s.funds.segment)
            && !Ordered(t).DispatchPublication? && !Ordered(t).PrepareAttempt?
            && (GateOpen(SnapshotOf(t)) && !PostingOf(t).status.Publishing?
                && e.successThreshold >= 1 && e.failureThreshold >= 1 ==>
                  Ordered(t) == if Exhausted(SnapshotOf(t)) then Pause(AttemptsExhausted)
                                else Probe(version, s.now >= e.windowEndsAt))
  {
    hide FirstOpen, GateOpen;
    var t := Apply(s, e);
    var facts := SnapshotOf(t);
    assert facts.candidate.Some? && facts.candidate.value.evidence == None;
    PublishExactly(facts, t.now);
    PrepareExactly(facts, t.now);
    ProbeExactly(facts, t.now);
    GateMeansOpen(facts);
  }

  lemma GateMeansOpen(facts: Snapshot)
    ensures GateOpen(facts) <==> WriteGate(facts).None?
  {
  }

  // ---------------------------------------------------------------- evidence

  /** A closed round becomes the evidence: its decision, the time it was closed and how long it counts,
      with the run of like decisions counted on. An undecided round leaves no time to count. */
  lemma RoundBecomesEvidence(s: State, e: Event)
    requires Legal(s, e) && e.CloseRound?
    ensures var before, after := s.vitals.record, Apply(s, e).vitals.record;
            var decision := if e.round.voided then Unknown else Decide(e.round.members, e.round.votes, e.round.policy);
            && after.addressVersion == before.addressVersion && after.probeConfig == before.probeConfig
            && after.decision == decision && after.observedAt == Some(s.now)
            && after.expiresAt == (if decision.Unknown? then None else Some(e.expiresAt))
            && after.health.successes == (if decision.DecidedSuccess? then before.health.successes + 1 else 0)
            && after.health.failures == (if decision.DecidedFailure? then before.health.failures + 1 else 0)
            && Apply(s, e).vitals.rounds == s.vitals.rounds + [e.round]
  {
    hide Decide, PolicyFault;
  }

  lemma ExpiryForgets(s: State)
    ensures var before, after := s.vitals.record, Apply(s, ExpireEvidence).vitals.record;
            && after.addressVersion == before.addressVersion && after.probeConfig == before.probeConfig
            && after.decision.Unknown? && after.expiresAt == None
            && after.health.successes == 0 && after.health.failures == 0
  {
  }

  /** Without a time to count there is nothing to publish or give up on. */
  lemma NothingWithoutEvidence(s: State)
    requires s.vitals.record.expiresAt == None || !s.target.matches
    ensures !Ordered(s).DispatchPublication?
    ensures s.phase.CandidatePhase? ==> !Ordered(s).PrepareAttempt?
  {
    hide FirstOpen, GateOpen, PostingOf;
    var facts := SnapshotOf(s);
    assert facts.candidate.Some? ==> facts.candidate.value.evidence == None;
    PublishExactly(facts, s.now);
    PrepareExactly(facts, s.now);
  }

  /** The health row proves this candidate good, by its own rounds, and still counts. */
  predicate RowProves(s: State, decision: Decision, c: Candidate) {
    var r := s.vitals.record;
    && s.target.matches
    && r.addressVersion == c.addressVersion && r.probeConfig == c.probeConfig && r.decision == decision
    && r.observedAt.Some? && r.observedAt.value <= s.now
    && r.expiresAt.Some? && s.now < r.expiresAt.value
  }

  /** An address is published only when the health row of the slot shows it good, at its current version
      and under its own probe configuration, on evidence that still counts; a candidate is given up
      only when the row shows it bad in the same way. */
  lemma PublicationIsProven(s: State, e: Event)
    requires Legal(s, e) && e.StartPublication?
    ensures s.target.candidate.Some?
    ensures var c := s.target.candidate.value;
            && Ordered(s) == DispatchPublication(c.addressVersion)
            && c.addressVersion == s.access.revisions.address == s.access.expected.address
            && RowProves(s, DecidedSuccess, c)
            && 1 <= c.successThreshold <= s.vitals.record.health.successes
    ensures Apply(s, e).phase == PublishPhase && s.access.expected.address in Apply(s, e).postings
  {
    hide FirstOpen, NextRotationAction;
    PublishExactly(SnapshotOf(s), s.now);
  }

  lemma DiscardIsShown(s: State, e: Event)
    requires Legal(s, e) && e.StartAttempt? && s.phase.CandidatePhase?
    ensures s.target.candidate.Some?
    ensures var c := s.target.candidate.value;
            && c.addressVersion == s.access.revisions.address
            && RowProves(s, DecidedFailure, c)
            && 1 <= c.failureThreshold <= s.vitals.record.health.failures
  {
    hide FirstOpen, NextRotationAction, PostingOf;
    PrepareExactly(SnapshotOf(s), s.now);
  }

  // ---------------------------------------------------------------- landing

  /** A publication that failed holds the incident up; one that landed completes it, or calls for the
      cleanup of what it replaced, which nobody has agreed to yet. */
  lemma LandingDecides(s: State, e: Event)
    requires Legal(s, e) && e.EndPublishing? && e.addressVersion == s.access.expected.address
    requires s.phase.PublishPhase? && !s.terminated && GateOpen(SnapshotOf(Apply(s, e)))
    requires s.target.candidate.Some? && s.target.candidate.value.addressVersion == e.addressVersion
    ensures var t := Apply(s, e);
            && (!e.landed ==> Ordered(t) == Pause(DnsPartial))
            && (e.landed && e.releases == [] ==> Ordered(t) == Complete)
            && (e.landed && e.releases != [] ==> Ordered(t) == Pause(CleanupNotAuthorized))
  {
    hide WriteGate, EvidenceOf, CandidateAction, CloudAction;
    var t := Apply(s, e);
    GateMeansOpen(SnapshotOf(t));
    if e.landed && e.releases != [] {
      assert PostingOf(t).cleanup.steps[0].status == Prepared;
      FirstOpenIsUnique(PostingOf(t).cleanup.steps, 0);
    }
  }

  /** Agreement to the cleanup of the version. */
  predicate Agrees(s: State, e: Event, version: int) {
    e == AuthorizeCleanup(true, true) && s.access.expected.address == version
  }

  ghost predicate AgreedBefore(states: seq<State>, events: seq<Event>, i: nat, version: int)
    requires |states| == |events| + 1 && i <= |events|
  {
    exists m :: 0 <= m < i && Agrees(states[m], events[m], version)
  }

  predicate AgreedNow(s: State, version: int) {
    && version in s.postings && s.postings[version].cleanup.Required?
    && s.postings[version].cleanup.authorized && s.postings[version].cleanup.ownershipVerified
  }

  lemma PublishingGivesNone(s: State, e: Event, version: int)
    requires Legal(s, e) && (e.StartPublication? || e.BeginPublishing? || e.EndPublishing?)
    requires AgreedNow(Apply(s, e), version)
    ensures AgreedNow(s, version)
  {
    hide SnapshotOf, NextRotationAction, FreshSteps;
  }

  lemma CleaningGivesNone(s: State, e: Event, version: int)
    requires Legal(s, e) && (e.SendCleanup? || e.ReportCleanup?)
    requires AgreedNow(Apply(s, e), version)
    ensures AgreedNow(s, version)
  {
    hide FirstOpen, NextRotationAction, SetStatus;
    if e.SendCleanup? {
      CleanUpExactly(SnapshotOf(s), s.now);
      assert SnapshotOf(s).cleanup == PostingOf(s).cleanup;
    }
  }

  lemma AgreementIsGiven(s: State, e: Event, version: int)
    requires Legal(s, e) && AgreedNow(Apply(s, e), version) && !AgreedNow(s, version)
    ensures Agrees(s, e, version)
  {
    if e.AuthorizeCleanup? {
    } else {
      hide Apply, Legal, AgreedNow, Agrees;
      if e.StartPublication? || e.BeginPublishing? || e.EndPublishing? {
        PublishingGivesNone(s, e, version);
      } else if e.SendCleanup? || e.ReportCleanup? {
        CleaningGivesNone(s, e, version);
      } else {
        Frame(s, e);
        SameAgreement(s, Apply(s, e), version);
      }
    }
  }

  lemma SameAgreement(s: State, t: State, version: int)
    requires t.postings == s.postings
    ensures AgreedNow(t, version) <==> AgreedNow(s, version)
  {
  }

  lemma {:induction false} AgreementWasGiven(states: seq<State>, events: seq<Event>, i: nat, version: int)
    requires Run(states, events) && i <= |events| && AgreedNow(states[i], version)
    ensures AgreedBefore(states, events, i, version)
  {
    hide Apply, Legal, AgreedNow, Agrees;
    if i == 0 {
      NothingAgreedAtFirst(states[0], version);
    } else if AgreedNow(states[i - 1], version) {
      AgreementWasGiven(states, events, i - 1, version);
    } else {
      AgreementIsGiven(states[i - 1], events[i - 1], version);
    }
  }

  lemma NothingAgreedAtFirst(s: State, version: int)
    requires Initial(s)
    ensures !AgreedNow(s, version)
  {
  }

  /** Nothing is released before somebody agreed to it, with its ownership verified, for the version
      published. */
  lemma CleanupHadConsent(states: seq<State>, events: seq<Event>, i: nat)
    requires Run(states, events) && i < |events| && events[i].SendCleanup?
    ensures AgreedBefore(states, events, i, states[i].access.expected.address)
  {
    hide Apply, NextRotationAction, FirstOpen, Initial;
    var s := states[i];
    assert Legal(s, events[i]);
    CleanUpExactly(SnapshotOf(s), s.now);
    assert SnapshotOf(s).cleanup == PostingOf(s).cleanup;
    AgreementWasGiven(states, events, i, s.access.expected.address);
  }
}
