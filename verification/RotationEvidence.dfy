/** Every event keeps the grounds of what was done: writes rest on an open gate, discards on
    proven failures, cleanup on a publication that landed. */
module RotationEvidence {
  import opened Wrappers
  import opened ProbeConsensus
  import H = HealthState
  import opened RotationMachine
  import opened RotationCoordinator
  import opened RotationBudget

  /** An applied round of this address version and probe configuration that its votes decided
      as a failure. */
  predicate ProvenFailure(round: FinalRound, addressVersion: int, probeConfig: int) {
    && round.addressVersion == addressVersion && round.probeConfig == probeConfig && !round.voided
    && EvaluateProbeRound(round.members, round.votes, round.policy) == Ok(DecidedFailure)
  }

  /** Length of the run of proven failures that ends the first `n` rounds. */
  function Trailing(rounds: seq<FinalRound>, n: nat, addressVersion: int, probeConfig: int): (r: nat)
    requires n <= |rounds|
    ensures r <= n && forall i :: n - r <= i < n ==> ProvenFailure(rounds[i], addressVersion, probeConfig)
  {
    if n == 0 || !ProvenFailure(rounds[n - 1], addressVersion, probeConfig) then 0
    else 1 + Trailing(rounds, n - 1, addressVersion, probeConfig)
  }

  lemma {:induction false} TrailingOfPrefix(a: seq<FinalRound>, b: seq<FinalRound>, n: nat, addressVersion: int,
      probeConfig: int)
    requires n <= |a| && n <= |b| && forall i :: 0 <= i < n ==> a[i] == b[i]
    ensures Trailing(a, n, addressVersion, probeConfig) == Trailing(b, n, addressVersion, probeConfig)
  {
    if n > 0 {
      TrailingOfPrefix(a, b, n - 1, addressVersion, probeConfig);
    }
  }

  /** The failure counter never runs ahead of the rounds that were actually decided so. */
  predicate CounterOk(v: Vitals) {
    v.record.health.failures <= Trailing(v.rounds, |v.rounds|, v.record.addressVersion, v.record.probeConfig)
  }

  predicate IsPublication(e: Entry, version: int) {
    e.PublicationSent? && e.facts.candidate.Some? && e.facts.candidate.value.addressVersion == version
  }

  predicate IsLanding(e: Entry, version: int, notBefore: int) {
    e.PublicationLanded? && e.addressVersion == version && e.at + e.grace == notBefore
  }

  ghost predicate PostingOk(v: int, posting: Posting, log: seq<Entry>) {
    && (exists q :: 0 <= q < |log| && IsPublication(log[q], v))
    && (posting.status.Publishing? || posting.status.Published? ==> posting.status.addressVersion == v)
    && (posting.cleanup.Required? ==> exists q :: 0 <= q < |log| && IsLanding(log[q], v, posting.cleanup.notBefore))
  }

  ghost predicate PostingsOk(postings: map<int, Posting>, log: seq<Entry>) {
    forall v :: v in postings ==> PostingOk(v, postings[v], log)
  }

  /** The grounds of the `p`-th entry, in the facts it was made on and the entries before it. */
  ghost predicate Grounded(log: seq<Entry>, p: nat, rounds: seq<FinalRound>)
    requires p < |log|
  {
    match log[p]
    case AttemptPrepared(facts, at, n) =>
      && MayPrepare(facts, at) && n <= |rounds|
      && (facts.phase.CandidatePhase? ==>
            var c := facts.candidate.value;
            Trailing(rounds, n, c.addressVersion, c.probeConfig) >= c.failureThreshold)
    case StepSent(facts, at, _, k) => MayDispatch(facts, at, k)
    case NoEffect(_, _, _) => true
    case PublicationSent(facts, at) => MayPublish(facts, at)
    case PublicationLanded(version, _, _) => exists q :: 0 <= q < p && IsPublication(log[q], version)
    case CleanupSent(facts, at, k) =>
      && MayCleanUp(facts, at, k)
      && exists q :: 0 <= q < p && IsLanding(log[q], facts.publication.addressVersion, facts.cleanup.notBefore)
  }

  ghost predicate AllGrounded(log: seq<Entry>, rounds: seq<FinalRound>) {
    forall p :: 0 <= p < |log| ==> Grounded(log, p, rounds)
  }

  ghost predicate EvidenceOk(s: State) {
    CounterOk(s.vitals) && PostingsOk(s.postings, s.log) && AllGrounded(s.log, s.vitals.rounds)
  }

  // ---------------------------------------------------------------- growth

  /** Grounds stay grounds when the log and the rounds grow. */
  lemma GroundsStay(log: seq<Entry>, longer: seq<Entry>, p: nat, rounds: seq<FinalRound>, later: seq<FinalRound>)
    requires p < |log| <= |longer| && (forall i :: 0 <= i < |log| ==> longer[i] == log[i])
    requires |rounds| <= |later| && forall i :: 0 <= i < |rounds| ==> later[i] == rounds[i]
    requires Grounded(log, p, rounds)
    ensures Grounded(longer, p, later)
  {
    hide MayPrepare, MayDispatch, MayPublish, MayCleanUp, Trailing, IsPublication, IsLanding;
    match log[p]
    case AttemptPrepared(facts, at, n) =>
      if facts.phase.CandidatePhase? {
        PrepareHasCandidate(facts, at);
        var c := facts.candidate.value;
        TrailingOfPrefix(rounds, later, n, c.addressVersion, c.probeConfig);
      }
    case PublicationLanded(version, _, _) =>
      var q :| 0 <= q < p && IsPublication(log[q], version);
      assert IsPublication(longer[q], version);
    case CleanupSent(facts, _, _) =>
      CleanUpHasFacts(facts, log[p].at, log[p].step);
      var q :| 0 <= q < p && IsLanding(log[q], facts.publication.addressVersion, facts.cleanup.notBefore);
      assert IsLanding(longer[q], facts.publication.addressVersion, facts.cleanup.notBefore);
    case _ =>
  }

  lemma PrepareHasCandidate(facts: Snapshot, at: int)
    requires MayPrepare(facts, at) && facts.phase.CandidatePhase?
    ensures facts.candidate.Some?
  {
  }

  lemma CleanUpHasFacts(facts: Snapshot, at: int, k: nat)
    requires MayCleanUp(facts, at, k)
    ensures facts.publication.Published? && facts.cleanup.Required?
  {
  }

  lemma PostingsStay(postings: map<int, Posting>, log: seq<Entry>, longer: seq<Entry>)
    requires PostingsOk(postings, log) && |log| <= |longer| && forall i :: 0 <= i < |log| ==> longer[i] == log[i]
    ensures PostingsOk(postings, longer)
  {
    hide IsPublication, IsLanding;
    forall v | v in postings ensures PostingOk(v, postings[v], longer) {
      assert PostingOk(v, postings[v], log);
      var q :| 0 <= q < |log| && IsPublication(log[q], v);
      assert IsPublication(longer[q], v);
      if postings[v].cleanup.Required? {
        var r :| 0 <= r < |log| && IsLanding(log[r], v, postings[v].cleanup.notBefore);
        assert IsLanding(longer[r], v, postings[v].cleanup.notBefore);
      }
    }
  }

  lemma AllStay(log: seq<Entry>, longer: seq<Entry>, rounds: seq<FinalRound>, later: seq<FinalRound>)
    requires AllGrounded(log, rounds) && |log| <= |longer| <= |log| + 1
        && (forall i :: 0 <= i < |log| ==> longer[i] == log[i])
    requires |rounds| <= |later| && forall i :: 0 <= i < |rounds| ==> later[i] == rounds[i]
    requires |longer| > |log| ==> Grounded(longer, |log|, later)
    ensures AllGrounded(longer, later)
  {
    hide Grounded;
    forall p | 0 <= p < |longer| ensures Grounded(longer, p, later) {
      if p < |log| {
        GroundsStay(log, longer, p, rounds, later);
      }
    }
  }

  // ---------------------------------------------------------------- events

  /** Closing a round moves the counter only as far as the round was decided. */
  lemma CloseKeepsCounter(v: Vitals, now: int, id: H.RoundId, round: FinalRound, thresholds: H.Thresholds,
      expiresAt: int)
    requires CounterOk(v) && Applicable(v.record, id, round, thresholds)
    ensures CounterOk(Closed(v, now, id, round, thresholds, expiresAt))
  {
    hide Decide, PolicyFault;
    var t := Closed(v, now, id, round, thresholds, expiresAt);
    TrailingOfPrefix(v.rounds, t.rounds, |v.rounds|, v.record.addressVersion, v.record.probeConfig);
    assert DecisionOf(round).DecidedFailure? ==> ProvenFailure(round, v.record.addressVersion, v.record.probeConfig);
  }

  lemma VitalsKeepCounter(s: State, e: Event)
    requires CounterOk(s.vitals) && Legal(s, e)
    ensures CounterOk(Apply(s, e).vitals)
  {
    hide Trailing, Closed, Ordered, SnapshotOf, Applicable, PostingOf;
    if !TouchesVitals(e) {
      Frame(s, e);
    } else if e.CloseRound? {
      CloseKeepsCounter(s.vitals, s.now, e.id, e.round, e.thresholds, e.expiresAt);
    }
  }

  /** A discard on fresh evidence rests on as many proven failures as the threshold asks. */
  lemma StartIsGrounded(s: State, e: Event)
    requires EvidenceOk(s) && e.StartAttempt? && Legal(s, e)
    ensures var t := Apply(s, e); Grounded(t.log, |s.log|, t.vitals.rounds)
  {
    hide NextRotationAction, FirstOpen, Trailing, AllGrounded, PostingsOk;
    PrepareExactly(SnapshotOf(s), s.now);
  }

  lemma SendIsGrounded(s: State, e: Event)
    requires e.SendStep? && Legal(s, e)
    ensures var t := Apply(s, e); |t.log| == |s.log| + 1 && Grounded(t.log, |s.log|, t.vitals.rounds)
  {
    hide NextRotationAction, FirstOpen, SnapshotOf, SetStatus;
    DispatchExactly(SnapshotOf(s), s.now);
    SendIsAfforded(s);
    assert SnapshotOf(s).attempt == CurrentOf(s.work) by { SnapshotShows(s); }
  }

  lemma SnapshotShows(s: State)
    ensures SnapshotOf(s).attempt == CurrentOf(s.work) && SnapshotOf(s).cleanup == PostingOf(s).cleanup
    ensures SnapshotOf(s).publication == PostingOf(s).status
  {
  }

  lemma ReportIsGrounded(s: State, e: Event)
    requires (e.Receive? || e.Refuse?) && Legal(s, e)
    ensures var t := Apply(s, e); |t.log| > |s.log| ==> Grounded(t.log, |s.log|, t.vitals.rounds)
  {
    hide SetStatus, AfterReport, Fenced, LastSending;
  }

  lemma StartPublicationIsGrounded(s: State, e: Event)
    requires EvidenceOk(s) && e.StartPublication? && Legal(s, e)
    ensures var t := Apply(s, e); Grounded(t.log, |s.log|, t.vitals.rounds) && PostingsOk(t.postings, t.log)
  {
    hide NextRotationAction, AllGrounded, CounterOk;
    PublishExactly(SnapshotOf(s), s.now);
    var t := Apply(s, e);
    PostingsStay(s.postings, s.log, t.log);
    assert IsPublication(t.log[|s.log|], Ordered(s).addressVersion);
  }

  lemma EndPublishingIsGrounded(s: State, e: Event)
    requires EvidenceOk(s) && e.EndPublishing? && Legal(s, e)
    ensures var t := Apply(s, e);
            && PostingsOk(t.postings, t.log)
            && (|t.log| > |s.log| ==> Grounded(t.log, |s.log|, t.vitals.rounds))
  {
    hide AllGrounded, CounterOk, IsPublication, FreshSteps;
    var t, v := Apply(s, e), e.addressVersion;
    assert PostingOk(v, s.postings[v], s.log);
    var q :| 0 <= q < |s.log| && IsPublication(s.log[q], v);
    PostingsStay(s.postings, s.log, t.log);
    assert IsPublication(t.log[q], v);
    if e.landed {
      assert IsLanding(t.log[|s.log|], v, s.now + e.grace);
    }
  }

  lemma CleanupIsGrounded(s: State, e: Event)
    requires EvidenceOk(s) && e.SendCleanup? && Legal(s, e)
    ensures var t := Apply(s, e);
            |t.log| == |s.log| + 1 && Grounded(t.log, |s.log|, t.vitals.rounds) && PostingsOk(t.postings, t.log)
  {
    hide AllGrounded, CounterOk, NextRotationAction, FirstOpen, IsPublication, IsLanding, SnapshotOf, SetStatus;
    CleanUpExactly(SnapshotOf(s), s.now);
    SnapshotShows(s);
    var t, v, posting := Apply(s, e), s.access.expected.address, PostingOf(s);
    assert PostingOk(v, s.postings[v], s.log);
    var q :| 0 <= q < |s.log| && IsLanding(s.log[q], v, posting.cleanup.notBefore);
    assert IsLanding(t.log[q], v, posting.cleanup.notBefore);
    PostingsStay(s.postings, s.log, t.log);
  }

  /** Fields of a posting that carry no claim may be rewritten. */
  lemma QuietPostings(s: State, e: Event)
    requires PostingsOk(s.postings, s.log) && Legal(s, e)
        && (e.AuthorizeCleanup? || e.BeginPublishing? || e.ReportCleanup?)
    ensures PostingsOk(Apply(s, e).postings, s.log)
  {
    hide IsPublication, IsLanding, SetStatus;
  }

  lemma StepKeepsEvidence(s: State, e: Event)
    requires EvidenceOk(s) && Legal(s, e)
    ensures EvidenceOk(Apply(s, e))
  {
    hide Apply, Legal, CounterOk, PostingsOk, AllGrounded, Grounded;
    var t := Apply(s, e);
    Frame(s, e);
    VitalsKeepCounter(s, e);
    if e.StartAttempt? {
      StartIsGrounded(s, e);
    } else if e.SendStep? {
      SendIsGrounded(s, e);
    } else if e.Receive? || e.Refuse? {
      ReportIsGrounded(s, e);
    } else if e.StartPublication? {
      StartPublicationIsGrounded(s, e);
    } else if e.EndPublishing? {
      EndPublishingIsGrounded(s, e);
    } else if e.SendCleanup? {
      CleanupIsGrounded(s, e);
    } else if TouchesPostings(e) {
      QuietPostings(s, e);
    }
    if !TouchesPostings(e) {
      PostingsStay(s.postings, s.log, t.log);
    }
    AllStay(s.log, t.log, s.vitals.rounds, t.vitals.rounds);
  }
}
