/** The coordinator around the decision: persisted attempts, budget segments, publication,
    cleanup and health evidence, and every event that may change them. One event is one
    transaction; a crash falls between events. */
module RotationCoordinator {
  import opened Wrappers
  import opened ProbeConsensus
  import H = HealthState
  import opened RotationMachine

  datatype Segment = Segment(used: int, max: int, exhausted: bool)

  /** The health row of the slot: its epoch, counters and latest decision. */
  datatype Record = Record(
    addressVersion: int, probeConfig: int, health: H.Health, decision: Decision, observedAt: Option<int>,
        expiresAt: Option<int>)

  /** A probe round applied to the health row; a voided one had expired or lacked an external vote.
      A superseded round reaches no health row and is no event. */
  datatype FinalRound = FinalRound(
    addressVersion: int, probeConfig: int, members: seq<ProbeId>, votes: Votes, policy: Policy, voided: bool)

  /** What the coordinator did, with the facts and the clock it acted on. Attempts and steps are
      named by position. `NoEffect` records positive word that a call changed nothing; `sending`
      is the entry that made the call. */
  datatype Entry =
    | AttemptPrepared(facts: Snapshot, at: int, rounds: nat)
    | StepSent(facts: Snapshot, at: int, attempt: nat, step: nat)
    | NoEffect(attempt: nat, step: nat, sending: nat)
    | PublicationSent(facts: Snapshot, at: int)
    | PublicationLanded(addressVersion: int, at: int, grace: nat)
    | CleanupSent(facts: Snapshot, at: int, step: nat)

  /** The publication of one address version, with the cleanup it calls for once it lands. */
  datatype Posting = Posting(status: Publication, cleanup: Cleanup)

  /** Who may write, on which revisions, under which lease. */
  datatype Access = Access(authorization: Authorization, revisions: Revisions, expected: Revisions, lease: Lease)

  /** The counter of the lease row, which every claim moves on, and whether the run holding the
      latest claim has sent a step: a run sends one at most. */
  datatype Claim = Claim(revision: int, spent: bool)

  /** The incident's budget segments; `pending` takes over when the current plan ends. */
  datatype Funds = Funds(segments: map<Id, Segment>, segment: Id, pending: Option<Id>, nextAttemptAt: int)

  datatype Work = Work(attempts: seq<Attempt>, current: Option<nat>)

  /** The slot's candidate address; `matches` says the health row belongs to it. */
  datatype Target = Target(candidate: Option<Candidate>, matches: bool, version: int)

  datatype Vitals = Vitals(record: Record, rounds: seq<FinalRound>)

  datatype State = State(
    now: int, phase: Phase, terminated: bool, access: Access, claim: Claim, funds: Funds, work: Work, target: Target,
    postings: map<int, Posting>, vitals: Vitals, log: seq<Entry>)

  datatype Report = StillPending | ReportApplied | ReportNotApplied | ReportAmbiguous

  datatype Event =
    // the world around the coordinator
    | Tick(ms: nat)
    | Drift(authorization: Authorization, revisions: Revisions, lease: Lease, candidate: Option<Candidate>,
        matches: bool)
    | ClaimLease
    | AuthorizeCleanup(authorized: bool, verified: bool)
    // probes
    | Rearm(addressVersion: int, probeConfig: int)
    | ExpireEvidence
    | CloseRound(id: H.RoundId, round: FinalRound, thresholds: H.Thresholds, expiresAt: int)
    // attempts
    | StartAttempt(id: Id, plan: seq<Id>)
    | SendStep(observeDeadline: int, minInterval: nat)
    | Receive(step: nat, sending: nat, conflict: bool, report: Option<Report>, fallbackDeadline: int)
    | Refuse(step: nat, sending: nat, reason: Rejection, retryAt: Option<int>)
    | Recover
    | Resume(segment: Id, max: nat)
    | LatchExhausted
    | Install(probeConfig: int, successThreshold: int, failureThreshold: int, windowEndsAt: int)
    // publication and cleanup
    | StartPublication
    | BeginPublishing(addressVersion: int)
    | EndPublishing(addressVersion: int, landed: bool, grace: nat, releases: seq<Id>)
    | EnterCleanup
    | SendCleanup(observeDeadline: int)
    | ReportCleanup(step: nat, status: Status)
    | Finish
    | Terminate

  // ---------------------------------------------------------------- facts

  function CurrentOf(work: Work): Option<Attempt> {
    if work.current.Some? && work.current.value < |work.attempts| then Some(work.attempts[work.current.value]) else None
  }

  function BudgetOf(funds: Funds): Budget {
    if funds.segment in funds.segments then
      var segment := funds.segments[funds.segment];
      Budget(funds.segment, segment.used, segment.max, segment.exhausted)
    else Budget(funds.segment, 0, 0, true)
  }

  /** The record as evidence, when it belongs to the present target and says something. */
  function EvidenceOf(target: Target, r: Record): Option<Evidence> {
    if target.matches && r.observedAt.Some? && r.expiresAt.Some? then
      Some(Evidence(r.addressVersion, r.probeConfig, r.decision, r.health.successes, r.health.failures,
                    r.observedAt.value, r.expiresAt.value))
    else None
  }

  /** The publication of the version the incident expects. */
  function PostingOf(s: State): Posting {
    var version := s.access.expected.address;
    if version in s.postings then s.postings[version] else Posting(Unpublished, NotRequired)
  }

  function SnapshotOf(s: State): Snapshot {
    Snapshot(s.phase, s.access.authorization, s.access.revisions, s.access.expected, s.access.lease,
             BudgetOf(s.funds), s.funds.nextAttemptAt, CurrentOf(s.work),
             if s.target.candidate.Some? then
               Some(s.target.candidate.value.(evidence := EvidenceOf(s.target, s.vitals.record)))
             else None,
             PostingOf(s).status, PostingOf(s).cleanup)
  }

  /** A terminated incident orders nothing more. */
  function Ordered(s: State): Action {
    if s.terminated then Wait(InstanceBusy, None) else NextRotationAction(SnapshotOf(s), s.now)
  }

  // ---------------------------------------------------------------- attempts

  predicate IsSend(e: Entry, attempt: nat, step: nat) {
    e.StepSent? && e.attempt == attempt && e.step == step
  }

  /** One of the first `n` entries sent the step. */
  predicate SentBy(log: seq<Entry>, n: nat, attempt: nat, step: nat)
    requires n <= |log|
  {
    exists p :: 0 <= p < n && IsSend(log[p], attempt, step)
  }

  /** The latest entry that sent the step, or -1. */
  function LastSending(log: seq<Entry>, attempt: nat, step: nat): (p: int)
    ensures -1 <= p < |log| && (p >= 0 ==> IsSend(log[p], attempt, step))
    ensures forall q :: p < q < |log| ==> !IsSend(log[q], attempt, step)
  {
    if log == [] then -1
    else if IsSend(log[|log| - 1], attempt, step) then |log| - 1
    else LastSending(log[..|log| - 1], attempt, step)
  }

  function FreshSteps(ids: seq<Id>): seq<Step> {
    seq(|ids|, i requires 0 <= i < |ids| => Step(ids[i], Prepared))
  }

  /** The step rows of a plan have keys of their own. */
  predicate DistinctIds(ids: seq<Id>) {
    forall i, j :: 0 <= i < j < |ids| ==> ids[i] != ids[j]
  }

  function SetStatus(steps: seq<Step>, k: nat, status: Status): seq<Step>
    requires k < |steps|
  {
    steps[k := steps[k].(status := status)]
  }

  function WithAttempt(work: Work, attempt: Attempt): Work
    requires CurrentOf(work).Some?
  {
    work.(attempts := work.attempts[work.current.value := attempt])
  }

  function WithStep(work: Work, k: nat, status: Status): Work
    requires CurrentOf(work).Some? && k < |CurrentOf(work).value.steps|
  {
    var attempt := CurrentOf(work).value;
    WithAttempt(work, attempt.(steps := SetStatus(attempt.steps, k, status)))
  }

  function Started(work: Work, id: Id, segment: Id, plan: seq<Id>): Work {
    Work(work.attempts + [Attempt(id, segment, false, FreshSteps(plan))], Some(|work.attempts|))
  }

  function SetCharge(work: Work, charged: bool): Work
    requires CurrentOf(work).Some?
  {
    WithAttempt(work, CurrentOf(work).value.(charged := charged))
  }

  function Spend(funds: Funds, segment: Id, change: int, nextAttemptAt: int): Funds
    requires segment in funds.segments
  {
    var row := funds.segments[segment];
    funds.(segments := funds.segments[segment := row.(used := row.used + change)], nextAttemptAt := nextAttemptAt)
  }

  /** The first effect of an attempt is charged with its dispatch. */
  function Charge(s: State, minInterval: nat): State
    requires CurrentOf(s.work).Some? && s.funds.segment in s.funds.segments
  {
    if CurrentOf(s.work).value.charged then s
    else s.(work := SetCharge(s.work, true), funds := Spend(s.funds, s.funds.segment, 1, s.now + minInterval))
  }

  /** A confirmed rejection of the plan's first step gives its charge back. */
  function Refund(s: State): State
    requires CurrentOf(s.work).Some?
  {
    var attempt := CurrentOf(s.work).value;
    if !attempt.charged || attempt.segment !in s.funds.segments then s
    else s.(work := SetCharge(s.work, false), funds := Spend(s.funds, attempt.segment, -1, s.now))
  }

  function DeadlineOf(status: Status, fallback: int): int {
    if Unsettled(status) then status.observeDeadline else fallback
  }

  /** The status a receipt or an observation leaves; conflicting receipts are never settled. */
  function AfterReport(prior: Status, conflict: bool, report: Option<Report>, fallback: int): Status {
    if prior.Abandoned? || prior.NotApplied? || prior.Rejected? then prior
    else if conflict || prior.Ambiguous? then Ambiguous
    else if prior.Applied? then Applied
    else if report.None? || report.value.StillPending? then Pending(DeadlineOf(prior, fallback))
    else if report.value.ReportApplied? then Applied
    else if report.value.ReportNotApplied? then NotApplied
    else Ambiguous
  }

  /** Transient refusals and observed non-effects, which recovery may send again. */
  predicate Recoverable(status: Status) {
    || status.NotApplied?
    || (status.Rejected?
        && (status.reason.RateLimited? || status.reason.TemporaryCloudError? || status.reason.UnknownCloudError?))
  }

  predicate Conclusive(status: Status) {
    status.NotApplied? || status.Rejected?
  }

  predicate Settled(status: Status) {
    status.Prepared? || status.Applied? || Conclusive(status)
  }

  predicate Unapplied(status: Status) {
    !status.Applied?
  }

  /** The steps picked by `which`, set to `status`. */
  function Rewritten(steps: seq<Step>, which: Status -> bool, status: Status): seq<Step> {
    seq(|steps|, i requires 0 <= i < |steps| => if which(steps[i].status) then steps[i].(status := status)
        else steps[i])
  }

  function WithSteps(work: Work, which: Status -> bool, status: Status): Work {
    if CurrentOf(work).None? then work
    else WithAttempt(work, CurrentOf(work).value.(steps := Rewritten(CurrentOf(work).value.steps, which, status)))
  }

  /** A charged plan is finished under the segment that paid for it. */
  predicate MidPlan(s: State) {
    s.phase.CloudPhase? && CurrentOf(s.work).Some? && CurrentOf(s.work).value.charged
  }

  function Widen(funds: Funds, id: Id, max: nat, midPlan: bool): Funds {
    var segments := funds.segments[id := Segment(0, max, false)];
    if midPlan then funds.(segments := segments, pending := Some(id))
    else funds.(segments := segments, segment := id, pending := None)
  }

  // ---------------------------------------------------------------- health

  function Blank(addressVersion: int, probeConfig: int): Record {
    Record(addressVersion, probeConfig, H.FRESH, Unknown, None, None)
  }

  predicate Decidable(round: FinalRound) {
    round.voided || PolicyFault(round.members, round.policy).None?
  }

  function DecisionOf(round: FinalRound): Decision
    requires Decidable(round)
  {
    if round.voided then Unknown else Decide(round.members, round.votes, round.policy)
  }

  /** A round counts only for the epoch the record is in. */
  predicate Applicable(r: Record, id: H.RoundId, round: FinalRound, thresholds: H.Thresholds) {
    && id != "" && H.Usable(thresholds) && Decidable(round)
    && round.addressVersion == r.addressVersion && round.probeConfig == r.probeConfig
  }

  function Closed(v: Vitals, now: int, id: H.RoundId, round: FinalRound, thresholds: H.Thresholds,
      expiresAt: int): Vitals
    requires Applicable(v.record, id, round, thresholds)
  {
    var decision := DecisionOf(round);
    var health := H.AdvanceRoundHealth(v.record.health.(lastRound := None), id, decision, thresholds).value;
    Vitals(v.record.(health := health, decision := decision, observedAt := Some(now),
                     expiresAt := if decision.Unknown? then None else Some(expiresAt)),
           v.rounds + [round])
  }

  function Expired(r: Record): Record {
    r.(health := r.health.(successes := 0, failures := 0), decision := Unknown, expiresAt := None)
  }

  // ---------------------------------------------------------------- events

  function Log(s: State, e: Entry): State {
    s.(log := s.log + [e])
  }

  function WithCleanup(s: State, cleanup: Cleanup): State {
    s.(postings := s.postings[s.access.expected.address := PostingOf(s).(cleanup := cleanup)])
  }

  /** `sending` made a call for step `k` of the current attempt. */
  predicate Answers(s: State, k: nat, sending: nat) {
    && CurrentOf(s.work).Some? && k < |CurrentOf(s.work).value.steps|
    && sending < |s.log| && IsSend(s.log[sending], s.work.current.value, k)
  }

  /** An answer carries the lease revision its call was made under, and is heard only while the
      step still bears that fence: the one of its last dispatch. */
  predicate Fenced(s: State, k: nat, sending: nat)
    requires Answers(s, k, sending)
  {
    s.log[sending].facts.lease.revision == s.log[LastSending(s.log, s.work.current.value, k)].facts.lease.revision
  }

  predicate Legal(s: State, e: Event) {
    match e
    case Drift(_, _, lease, _, _) => lease.held ==> lease.revision == s.claim.revision
    case ClaimLease => !s.access.lease.held
    case CloseRound(id, round, thresholds, _) => Applicable(s.vitals.record, id, round, thresholds)
    case StartAttempt(_, plan) => Ordered(s).PrepareAttempt? && |plan| > 0 && DistinctIds(plan)
    case SendStep(_, _) => Ordered(s).CloudStep? && !s.claim.spent && s.funds.segment in s.funds.segments
    case Receive(k, sending, _, _, _) => Answers(s, k, sending)
    case Refuse(k, sending, _, _) => !s.terminated && Answers(s, k, sending)
        && Unapplied(CurrentOf(s.work).value.steps[k].status)
    case Recover => !s.terminated && s.phase.CloudPhase?
    case Resume(id, _) =>
      && !s.terminated && id !in s.funds.segments
      && (s.phase.CloudPhase? && CurrentOf(s.work).Some? ==>
            forall k :: 0 <= k < |CurrentOf(s.work).value.steps| ==> Settled(CurrentOf(s.work).value.steps[k].status))
    case LatchExhausted => Ordered(s) == Pause(AttemptsExhausted) && s.funds.segment in s.funds.segments
    case Install(_, _, _, _) =>
      && !s.terminated && s.phase.CloudPhase? && CurrentOf(s.work).Some?
      && forall k :: 0 <= k < |CurrentOf(s.work).value.steps| ==> CurrentOf(s.work).value.steps[k].status.Applied?
    case StartPublication => Ordered(s).DispatchPublication?
    case BeginPublishing(v) => !s.terminated && v in s.postings && !s.postings[v].status.Published?
    case EndPublishing(v, _, _, _) => v in s.postings && s.postings[v].status.Publishing?
    case EnterCleanup => s.phase.PublishPhase? && PostingOf(s).status.Published?
    case SendCleanup(_) => Ordered(s).CleanupStep?
    case ReportCleanup(k, status) =>
      var cleanup := PostingOf(s).cleanup;
      cleanup.Required? && k < |cleanup.steps| && Unsettled(cleanup.steps[k].status) && !status.Prepared?
    case Finish => Ordered(s).Complete?
    case _ => true
  }

  function Sent(s: State, observeDeadline: int, minInterval: nat): State
    requires CurrentOf(s.work).Some? && s.funds.segment in s.funds.segments
    requires FirstOpen(CurrentOf(s.work).value.steps) < |CurrentOf(s.work).value.steps|
  {
    var k, paid := FirstOpen(CurrentOf(s.work).value.steps), Charge(s, minInterval);
    Log(paid.(work := WithStep(paid.work, k, InFlight(observeDeadline)), claim := s.claim.(spent := true)),
        StepSent(SnapshotOf(s), s.now, s.work.current.value, k))
  }

  function Received(
    s: State, k: nat, sending: nat, conflict: bool, report: Option<Report>, fallback: int): State
    requires CurrentOf(s.work).Some? && k < |CurrentOf(s.work).value.steps|
  {
    var prior := CurrentOf(s.work).value.steps[k].status;
    var status := AfterReport(prior, conflict, report, fallback);
    var next := s.(work := WithStep(s.work, k, status));
    if status.NotApplied? && !prior.NotApplied? then Log(next, NoEffect(s.work.current.value, k, sending)) else next
  }

  function AfterRefusal(s: State, k: nat, sending: nat, reason: Rejection, retryAt: Option<int>): State
    requires CurrentOf(s.work).Some? && k < |CurrentOf(s.work).value.steps|
  {
    var released := if k == 0 then Refund(s) else s;
    Log(released.(work := WithStep(released.work, k, Rejected(reason, retryAt))),
        NoEffect(s.work.current.value, k, sending))
  }

  /** A user's resume: new expectations and a new segment. An uncharged plan is dropped, a
      charged one keeps going with its conclusively failed steps prepared again. */
  function Resumed(s: State, id: Id, max: nat): State {
    var work :=
      if MidPlan(s) then WithSteps(s.work, Conclusive, Prepared)
      else if s.phase.CloudPhase? then s.work.(current := None)
      else s.work;
    s.(access := s.access.(expected := s.access.revisions), funds := Widen(s.funds, id, max, MidPlan(s)), work := work)
  }

  function Installed(s: State, probeConfig: int, success: int, failure: int, windowEndsAt: int): State {
    var version := s.target.version + 1;
    s.(phase := CandidatePhase,
       access := s.access.(expected := s.access.expected.(address := version),
           revisions := s.access.revisions.(address := version)),
       target := Target(Some(Candidate(version, probeConfig, success, failure, windowEndsAt, s.now, None)),
           s.target.matches, version),
       funds := s.funds.(segment := s.funds.pending.GetOr(s.funds.segment), pending := None),
       vitals := s.vitals.(record := Blank(version, probeConfig)))
  }

  function PublicationStarted(s: State, version: int): State {
    var postings := if version in s.postings then s.postings
        else s.postings[version := Posting(Unpublished, NotRequired)];
    Log(s.(phase := PublishPhase, postings := postings), PublicationSent(SnapshotOf(s), s.now))
  }

  function PublicationEnded(s: State, v: int, landed: bool, grace: nat, releases: seq<Id>): State
    requires v in s.postings
  {
    if !landed then s.(postings := s.postings[v := s.postings[v].(status := PublicationFailed)])
    else
      var cleanup := if releases == [] then NotRequired
          else Required(false, false, s.now + grace, FreshSteps(releases));
      Log(s.(postings := s.postings[v := Posting(Published(v), cleanup)]), PublicationLanded(v, s.now, grace))
  }

  function CleanupBegun(s: State, observeDeadline: int): State
    requires PostingOf(s).cleanup.Required? && FirstOpen(PostingOf(s).cleanup.steps) < |PostingOf(s).cleanup.steps|
  {
    var cleanup := PostingOf(s).cleanup;
    var k := FirstOpen(cleanup.steps);
    Log(WithCleanup(s, cleanup.(steps := SetStatus(cleanup.steps, k, InFlight(observeDeadline)))),
        CleanupSent(SnapshotOf(s), s.now, k))
  }

  function Apply(s: State, e: Event): State
    requires Legal(s, e)
  {
    match e
    case Tick(ms) => s.(now := s.now + ms)
    case Drift(authorization, revisions, lease, candidate, matches) =>
      s.(access := Access(authorization, revisions, s.access.expected, lease),
          target := Target(candidate, matches, s.target.version))
    case ClaimLease =>
      var revision := s.claim.revision + 1;
      s.(claim := Claim(revision, false), access := s.access.(lease := Lease(true, revision, revision)))
    case AuthorizeCleanup(authorized, verified) =>
      var cleanup := PostingOf(s).cleanup;
      if cleanup.Required? then WithCleanup(s, cleanup.(authorized := authorized, ownershipVerified := verified)) else s
    case Rearm(addressVersion, probeConfig) => s.(vitals := s.vitals.(record := Blank(addressVersion, probeConfig)))
    case ExpireEvidence => s.(vitals := s.vitals.(record := Expired(s.vitals.record)))
    case CloseRound(id, round, thresholds, expiresAt) =>
      s.(vitals := Closed(s.vitals, s.now, id, round, thresholds, expiresAt))
    case StartAttempt(id, plan) =>
      Log(s.(phase := CloudPhase, work := Started(s.work, id, s.funds.segment, plan)),
          AttemptPrepared(SnapshotOf(s), s.now, |s.vitals.rounds|))
    case SendStep(observeDeadline, minInterval) =>
      DispatchExactly(SnapshotOf(s), s.now);
      Sent(s, observeDeadline, minInterval)
    case Receive(k, sending, conflict, report, fallback) =>
      if Fenced(s, k, sending) then Received(s, k, sending, conflict, report, fallback) else s
    case Refuse(k, sending, reason, retryAt) =>
      if Fenced(s, k, sending) then AfterRefusal(s, k, sending, reason, retryAt) else s
    case Recover => s.(work := WithSteps(s.work, Recoverable, Prepared))
    case Resume(id, max) => Resumed(s, id, max)
    case LatchExhausted =>
      var funds, row := s.funds, s.funds.segments[s.funds.segment];
      s.(funds := funds.(segments := funds.segments[funds.segment := row.(exhausted := true)]))
    case Install(probeConfig, success, failure, windowEndsAt) => Installed(s, probeConfig, success, failure,
        windowEndsAt)
    case StartPublication => PublicationStarted(s, Ordered(s).addressVersion)
    case BeginPublishing(v) => s.(postings := s.postings[v := s.postings[v].(status := Publishing(v))])
    case EndPublishing(v, landed, grace, releases) => PublicationEnded(s, v, landed, grace, releases)
    case EnterCleanup => s.(phase := CleanupPhase)
    case SendCleanup(observeDeadline) =>
      CleanUpExactly(SnapshotOf(s), s.now);
      CleanupBegun(s, observeDeadline)
    case ReportCleanup(k, status) =>
      var cleanup := PostingOf(s).cleanup;
      WithCleanup(s, cleanup.(steps := SetStatus(cleanup.steps, k, status)))
    case Finish => s.(phase := CompletePhase)
    case Terminate => s.(terminated := true, work := WithSteps(s.work, Unapplied, Abandoned))
  }

  /** A new incident: nothing prepared, published, measured or logged yet. */
  predicate Initial(s: State) {
    && s.phase.CloudPhase? && s.work == Work([], None) && s.log == [] && s.vitals.rounds == [] && !s.terminated
    && (s.access.lease.held ==> s.access.lease.revision == s.claim.revision)
    && s.postings == map[] && s.vitals.record.health.failures == 0 && s.vitals.record.health.successes == 0
    && s.funds.pending == None && s.funds.segment in s.funds.segments
    && s.funds.segments == map[s.funds.segment := Segment(0, s.funds.segments[s.funds.segment].max, false)]
  }

  /** A run: the states visited and the events between them. */
  ghost predicate Run(states: seq<State>, events: seq<Event>) {
    && |states| == |events| + 1 && Initial(states[0])
    && forall i :: 0 <= i < |events| ==> Legal(states[i], events[i]) && states[i + 1] == Apply(states[i], events[i])
  }
}
