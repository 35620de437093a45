/** The next action of a rotation, from one transactional snapshot of the coordinator's facts.
    Times are whole milliseconds, so the source's guards on non-finite numbers never fire. */
module RotationMachine {
  import opened Wrappers
  import opened ProbeConsensus

  type Id = string

  datatype Rejection =
    | PermissionDenied | QuotaExceeded | CredentialsExpired | InvalidCredentials | RateLimited | TemporaryCloudError
    | UnknownCloudError | RotationUnsupported | CloudWritesNotEnabled | RemoteIdentityChanged | ResourceNotFound

  datatype Status =
    | Prepared
    | Applied
    | NotApplied
    | Ambiguous
    | Abandoned
    | InFlight(observeDeadline: int)
    | Pending(observeDeadline: int)
    | Rejected(reason: Rejection, retryAt: Option<int>)

  datatype Step = Step(id: Id, status: Status)

  datatype Authorization = Authorization(
    managed: bool, familyEnabled: bool, present: bool, regionAllowed: bool, conflictingManager: bool,
        lifecycleBlocked: bool)

  datatype Revisions = Revisions(authorization: int, policy: int, address: int)
  datatype Lease = Lease(held: bool, revision: int, expectedRevision: int)
  datatype Budget = Budget(segment: Id, used: int, max: int, exhausted: bool)
  datatype Attempt = Attempt(id: Id, segment: Id, charged: bool, steps: seq<Step>)

  datatype Evidence = Evidence(
    addressVersion: int, probeConfig: int, decision: Decision, successes: int, failures: int, observedAt: int,
        expiresAt: int)

  datatype Candidate = Candidate(
    addressVersion: int, probeConfig: int, successThreshold: int, failureThreshold: int,
    windowEndsAt: int, nextProbeAt: int, evidence: Option<Evidence>)

  datatype Publication =
    | Unpublished
    | PublicationFailed
    | Publishing(addressVersion: int)
    | Published(addressVersion: int)

  datatype Cleanup =
    | NotRequired
    | CleanupFailed
    | Required(authorized: bool, ownershipVerified: bool, notBefore: int, steps: seq<Step>)

  datatype Phase = CloudPhase | CandidatePhase | PublishPhase | CleanupPhase | CompletePhase

  datatype Snapshot = Snapshot(
    phase: Phase, authorization: Authorization, revisions: Revisions, expected: Revisions, lease: Lease,
    budget: Budget, nextAttemptAt: int, attempt: Option<Attempt>, candidate: Option<Candidate>,
    publication: Publication, cleanup: Cleanup)

  datatype WaitReason =
    | InstanceBusy | Cooldown | CandidateRequired | ProbeInsufficient | PublicationRequired | CleanupGrace
    | Throttled(rejection: Rejection)

  datatype PauseReason =
    | AuthorizationRevoked | FamilyDisabled | RegionExcluded | ConflictingManager | AuthorizationChanged
    | ConfigurationChanged | AddressVersionChanged | StaleFence | AttemptsExhausted | OwnershipAmbiguous
    | CloudNotApplied | CandidateFailed | DnsPartial | CleanupNotAuthorized | CleanupHasFailed | InvalidSnapshot
    | LifecycleBusy | CloudRefused(rejection: Rejection)

  datatype Action =
    | Wait(wait: WaitReason, until: Option<int>)
    | PrepareAttempt(segment: Id)
    | CloudStep(attempt: Id, step: Id)
    | Observe(attempt: Id, step: Id, expired: bool)
    | Probe(addressVersion: int, windowExpired: bool)
    | DispatchPublication(addressVersion: int)
    | ObservePublication(addressVersion: int)
    | CleanupStep(attempt: Id, step: Id)
    | Pause(pause: PauseReason)
    | Complete

  // ---------------------------------------------------------------- decision

  /** Index of the first step that is not applied; the number of steps when all are. */
  function FirstOpen(steps: seq<Step>): (k: nat)
    ensures k <= |steps| && (forall i :: 0 <= i < k ==> steps[i].status.Applied?)
    ensures k < |steps| ==> !steps[k].status.Applied?
  {
    if steps == [] || !steps[0].status.Applied? then 0 else 1 + FirstOpen(steps[1..])
  }

  predicate InCleanup(s: Snapshot) {
    s.phase.CleanupPhase? || (s.phase.PublishPhase? && s.publication.Published?)
  }

  /** The step the snapshot is about, if any. */
  function OpenStep(s: Snapshot): Option<Step> {
    var steps :=
      if InCleanup(s) && s.cleanup.Required? then s.cleanup.steps
      else if s.phase.CloudPhase? && s.attempt.Some? then s.attempt.value.steps
      else [];
    if FirstOpen(steps) < |steps| then Some(steps[FirstOpen(steps)]) else None
  }

  function NextRotationAction(s: Snapshot, now: int): Action {
    if s.phase.CompletePhase? then Complete
    else
      var step := OpenStep(s);
      if step.Some? && step.value.status.Abandoned? then Pause(CloudNotApplied)
      else if s.attempt.Some? && step.Some? && (step.value.status.InFlight? || step.value.status.Pending?) then
        Observe(s.attempt.value.id, step.value.id, now >= step.value.status.observeDeadline)
      else if s.publication.Publishing? then ObservePublication(s.publication.addressVersion)
      else
        match WriteGate(s)
        case Some(blocked) => blocked
        case None =>
          match s.phase
          case CloudPhase => CloudAction(s, step, now)
          case CandidatePhase => CandidateAction(s, now, true)
          case PublishPhase =>
            if s.publication.PublicationFailed? then Pause(DnsPartial)
            else if !s.publication.Published? then CandidateAction(s, now, false)
            else CleanupAction(s, now)
          case CleanupPhase => CleanupAction(s, now)
          case CompletePhase => Complete
  }

  function WriteGate(s: Snapshot): Option<Action> {
    var auth := s.authorization;
    if auth.lifecycleBlocked then Some(Pause(LifecycleBusy))
    else if !auth.managed then Some(Pause(AuthorizationRevoked))
    else if !auth.familyEnabled then Some(Pause(FamilyDisabled))
    else if !auth.present then Some(Pause(CloudRefused(ResourceNotFound)))
    else if !auth.regionAllowed then Some(Pause(RegionExcluded))
    else if auth.conflictingManager then Some(Pause(ConflictingManager))
    else if s.revisions.authorization != s.expected.authorization then Some(Pause(AuthorizationChanged))
    else if s.revisions.policy != s.expected.policy then Some(Pause(ConfigurationChanged))
    else if s.revisions.address != s.expected.address then Some(Pause(AddressVersionChanged))
    else if !s.lease.held then Some(Wait(InstanceBusy, None))
    else if s.lease.revision != s.lease.expectedRevision then Some(Pause(StaleFence))
    else None
  }

  predicate Exhausted(s: Snapshot) {
    s.budget.exhausted || s.budget.used >= s.budget.max
  }

  function AttemptGate(s: Snapshot, now: int): Option<Action> {
    if s.budget.max < 1 || s.budget.used < 0 then Some(Pause(InvalidSnapshot))
    else if Exhausted(s) then Some(Pause(AttemptsExhausted))
    else if now < s.nextAttemptAt then Some(Wait(Cooldown, Some(s.nextAttemptAt)))
    else None
  }

  function Prepare(s: Snapshot, now: int): Action {
    AttemptGate(s, now).GetOr(PrepareAttempt(s.budget.segment))
  }

  function CloudAction(s: Snapshot, step: Option<Step>, now: int): Action {
    if s.attempt.None? then Prepare(s, now)
    else
      var attempt := s.attempt.value;
      if attempt.steps == [] || attempt.segment != s.budget.segment then Pause(InvalidSnapshot)
      else if step.None? then Wait(CandidateRequired, None)
      else
        var status := step.value.status;
        if status.Ambiguous? then Pause(OwnershipAmbiguous)
        else if status.NotApplied? then Pause(CloudNotApplied)
        else if status.Rejected? && (!(status.reason.RateLimited? || status.reason.TemporaryCloudError?)
            || status.retryAt.None?) then
          Pause(CloudRefused(status.reason))
        else if status.Rejected? && now < status.retryAt.value then Wait(Throttled(status.reason), status.retryAt)
        else if !attempt.charged && AttemptGate(s, now).Some? then AttemptGate(s, now).value
        else CloudStep(attempt.id, step.value.id)
  }

  /** Evidence counts for this candidate, under this probe configuration, now. */
  predicate Fresh(c: Candidate, now: int) {
    && c.evidence.Some?
    && c.evidence.value.addressVersion == c.addressVersion && c.evidence.value.probeConfig == c.probeConfig
    && c.evidence.value.observedAt <= now < c.evidence.value.expiresAt
  }

  predicate ShownGood(c: Candidate, now: int) {
    Fresh(c, now) && c.evidence.value.decision.DecidedSuccess? && c.evidence.value.successes >= c.successThreshold
  }

  predicate ShownBad(c: Candidate, now: int) {
    Fresh(c, now) && c.evidence.value.decision.DecidedFailure? && c.evidence.value.failures >= c.failureThreshold
  }

  function CandidateAction(s: Snapshot, now: int, mayRotate: bool): Action {
    if s.candidate.None? then Wait(CandidateRequired, None)
    else
      var c := s.candidate.value;
      if c.addressVersion != s.revisions.address then Pause(AddressVersionChanged)
      else if c.successThreshold < 1 || c.failureThreshold < 1 then Pause(InvalidSnapshot)
      else if ShownGood(c, now) then DispatchPublication(c.addressVersion)
      else if mayRotate && Exhausted(s) then Pause(AttemptsExhausted)
      else if ShownBad(c, now) then
        if !mayRotate then Pause(CandidateFailed)
        else if s.attempt.None? || !s.attempt.value.charged then Pause(InvalidSnapshot)
        else Prepare(s, now)
      else if now < c.nextProbeAt then Wait(ProbeInsufficient, Some(c.nextProbeAt))
      else Probe(c.addressVersion, now >= c.windowEndsAt)
  }

  function CleanupAction(s: Snapshot, now: int): Action {
    if s.publication.PublicationFailed? then Pause(DnsPartial)
    else if !s.publication.Published? then Wait(PublicationRequired, None)
    else if s.publication.addressVersion != s.revisions.address
            || s.candidate.None? || s.publication.addressVersion != s.candidate.value.addressVersion then
      Pause(AddressVersionChanged)
    else
      match s.cleanup
      case CleanupFailed => Pause(CleanupHasFailed)
      case NotRequired => Complete
      case Required(authorized, ownershipVerified, notBefore, steps) =>
        if FirstOpen(steps) == |steps| then Complete
        else
          var step := steps[FirstOpen(steps)];
          if !authorized then Pause(CleanupNotAuthorized)
          else if !ownershipVerified || step.status.Ambiguous? then Pause(OwnershipAmbiguous)
          else if !step.status.Prepared? then Pause(CleanupHasFailed)
          else if now < notBefore then Wait(CleanupGrace, Some(notBefore))
          else if s.attempt.None? then Pause(InvalidSnapshot)
          else CleanupStep(s.attempt.value.id, step.id)
  }

  // ---------------------------------------------------------------- what the actions mean

  /** Every condition a write needs, in no particular order. */
  predicate GateOpen(s: Snapshot) {
    && s.authorization == Authorization(true, true, true, true, false, false)
    && s.revisions == s.expected
    && s.lease.held && s.lease.revision == s.lease.expectedRevision
  }

  /** A write whose result is still unknown. */
  predicate Unsettled(status: Status) {
    status.InFlight? || status.Pending?
  }

  predicate HasBudget(s: Snapshot, now: int) {
    !s.budget.exhausted && 0 <= s.budget.used < s.budget.max && now >= s.nextAttemptAt
  }

  /** The step may be sent: untouched, or refused without effect and past its retry time. */
  predicate Sendable(status: Status, now: int) {
    || status.Prepared?
    || (status.Rejected? && (status.reason.RateLimited? || status.reason.TemporaryCloudError?)
        && status.retryAt.Some? && status.retryAt.value <= now)
  }

  /** When the `k`-th step of the attempt may be sent to the cloud. */
  predicate MayDispatch(s: Snapshot, now: int, k: nat) {
    && GateOpen(s) && s.phase.CloudPhase? && !s.publication.Publishing? && s.attempt.Some?
    && var attempt := s.attempt.value;
    && k < |attempt.steps| && (forall i :: 0 <= i < k ==> attempt.steps[i].status.Applied?)
    && Sendable(attempt.steps[k].status, now)
    && attempt.segment == s.budget.segment && (attempt.charged || HasBudget(s, now))
  }

  predicate MayPrepare(s: Snapshot, now: int) {
    && GateOpen(s) && !s.publication.Publishing? && HasBudget(s, now)
    && ((s.phase.CloudPhase? && s.attempt.None?)
        || (s.phase.CandidatePhase? && MayDiscard(s, now)))
  }

  /** The current candidate may be given up for another attempt. */
  predicate MayDiscard(s: Snapshot, now: int) {
    && s.attempt.Some? && s.attempt.value.charged && s.candidate.Some?
    && var c := s.candidate.value;
    && c.addressVersion == s.revisions.address && c.successThreshold >= 1 && c.failureThreshold >= 1
    && OwnEvidence(c, now)
    && c.evidence.value.decision == DecidedFailure && c.evidence.value.failures >= c.failureThreshold
  }

  /** There is evidence about this very candidate and probe configuration, and its time is now. */
  predicate OwnEvidence(c: Candidate, now: int) {
    match c.evidence
    case None => false
    case Some(evidence) =>
      && evidence.addressVersion == c.addressVersion && evidence.probeConfig == c.probeConfig
      && evidence.observedAt <= now && now < evidence.expiresAt
  }

  predicate MayPublish(s: Snapshot, now: int) {
    && GateOpen(s) && !s.publication.Publishing?
    && (s.phase.CandidatePhase? || (s.phase.PublishPhase? && s.publication.Unpublished?))
    && s.candidate.Some?
    && var c := s.candidate.value;
    && c.addressVersion == s.revisions.address && c.successThreshold >= 1 && c.failureThreshold >= 1
    && OwnEvidence(c, now)
    && c.evidence.value.decision == DecidedSuccess && c.evidence.value.successes >= c.successThreshold
  }

  predicate MayCleanUp(s: Snapshot, now: int, k: nat) {
    && GateOpen(s) && InCleanup(s) && s.attempt.Some?
    && s.publication.Published? && s.candidate.Some?
    && s.publication.addressVersion == s.revisions.address == s.candidate.value.addressVersion
    && s.cleanup.Required? && s.cleanup.authorized && s.cleanup.ownershipVerified && s.cleanup.notBefore <= now
    && k < |s.cleanup.steps| && (forall i :: 0 <= i < k ==> s.cleanup.steps[i].status.Applied?)
    && s.cleanup.steps[k].status.Prepared?
  }

  lemma {:induction false} FirstOpenIsUnique(steps: seq<Step>, k: nat)
    requires k < |steps| && (forall i :: 0 <= i < k ==> steps[i].status.Applied?) && !steps[k].status.Applied?
    ensures FirstOpen(steps) == k
  {
  }

  /** A cloud step is ordered exactly when it may be sent, and it is the first open one. */
  lemma DispatchExactly(s: Snapshot, now: int)
    ensures NextRotationAction(s, now).CloudStep? <==>
              s.attempt.Some? && MayDispatch(s, now, FirstOpen(s.attempt.value.steps))
    ensures NextRotationAction(s, now).CloudStep? ==>
              NextRotationAction(s, now)
              == CloudStep(s.attempt.value.id, s.attempt.value.steps[FirstOpen(s.attempt.value.steps)].id)
  {
    hide FirstOpen;
  }

  lemma PrepareExactly(s: Snapshot, now: int)
    ensures NextRotationAction(s, now).PrepareAttempt? <==> MayPrepare(s, now)
    ensures NextRotationAction(s, now).PrepareAttempt? ==> NextRotationAction(s, now).segment == s.budget.segment
  {
    hide FirstOpen;
  }

  lemma PublishExactly(s: Snapshot, now: int)
    ensures NextRotationAction(s, now).DispatchPublication? <==> MayPublish(s, now)
    ensures NextRotationAction(s, now).DispatchPublication? ==>
              NextRotationAction(s, now).addressVersion == s.candidate.value.addressVersion
  {
    hide FirstOpen;
  }

  lemma CleanUpExactly(s: Snapshot, now: int)
    ensures NextRotationAction(s, now).CleanupStep? <==>
        s.cleanup.Required? && MayCleanUp(s, now, FirstOpen(s.cleanup.steps))
    ensures NextRotationAction(s, now).CleanupStep? ==>
              NextRotationAction(s, now)
              == CleanupStep(s.attempt.value.id, s.cleanup.steps[FirstOpen(s.cleanup.steps)].id)
  {
    hide FirstOpen;
  }

  /** An effect already sent is observed whatever has since happened to the authorization, the
      revisions, the lease, the budget, the candidate or the publication. */
  lemma UnsettledIsObserved(s: Snapshot, now: int, k: nat)
    requires s.attempt.Some? && k < |s.attempt.value.steps| && s.phase.CloudPhase?
    requires forall i :: 0 <= i < k ==> s.attempt.value.steps[i].status.Applied?
    requires Unsettled(s.attempt.value.steps[k].status)
    ensures NextRotationAction(s, now)
            == Observe(s.attempt.value.id, s.attempt.value.steps[k].id,
                now >= s.attempt.value.steps[k].status.observeDeadline)
  {
    FirstOpenIsUnique(s.attempt.value.steps, k);
  }

  // ---------------------------------------------------------------- the other actions

  predicate AllApplied(steps: seq<Step>) {
    forall i :: 0 <= i < |steps| ==> steps[i].status.Applied?
  }

  /** The published address is the current one and the candidate's. */
  predicate PublishedCurrent(s: Snapshot) {
    && s.publication.Published? && s.candidate.Some?
    && s.publication.addressVersion == s.revisions.address == s.candidate.value.addressVersion
  }

  /** An incident is over exactly in its last phase, or when the gate is open, the current address is
      published and nothing is left to clean up. */
  lemma CompleteExactly(s: Snapshot, now: int)
    ensures NextRotationAction(s, now).Complete? <==>
              s.phase.CompletePhase?
              || (GateOpen(s) && (s.phase.CleanupPhase? || s.phase.PublishPhase?) && PublishedCurrent(s)
                  && (s.cleanup.NotRequired? || (s.cleanup.Required? && AllApplied(s.cleanup.steps))))
  {
    hide FirstOpen;
    if s.cleanup.Required? {
      if AllApplied(s.cleanup.steps) {
        assert FirstOpen(s.cleanup.steps) == |s.cleanup.steps|;
      } else {
        assert FirstOpen(s.cleanup.steps) < |s.cleanup.steps|;
      }
    }
  }

  /** The steps whose results the phase is about. */
  function PhaseSteps(s: Snapshot): seq<Step> {
    if (s.phase.CleanupPhase? || (s.phase.PublishPhase? && s.publication.Published?)) && s.cleanup.Required? then
      s.cleanup.steps
    else if s.phase.CloudPhase? && s.attempt.Some? then s.attempt.value.steps
    else []
  }

  /** The `k`-th step is the first one not applied. */
  predicate OpenAt(steps: seq<Step>, k: nat) {
    k < |steps| && !steps[k].status.Applied? && forall i :: 0 <= i < k ==> steps[i].status.Applied?
  }

  /** A result is looked for exactly when the first open step was sent and is unsettled. */
  lemma ObserveExactly(s: Snapshot, now: int, k: nat)
    requires OpenAt(PhaseSteps(s), k)
    ensures var step := PhaseSteps(s)[k];
            NextRotationAction(s, now).Observe? <==>
            !s.phase.CompletePhase? && s.attempt.Some? && Unsettled(step.status)
    ensures NextRotationAction(s, now).Observe? ==>
              NextRotationAction(s, now) == Observe(s.attempt.value.id, PhaseSteps(s)[k].id,
                                                    now >= PhaseSteps(s)[k].status.observeDeadline)
  {
    FirstOpenIsUnique(PhaseSteps(s), k);
  }

  lemma NothingOpenNothingObserved(s: Snapshot, now: int)
    requires AllApplied(PhaseSteps(s))
    ensures !NextRotationAction(s, now).Observe?
    ensures NextRotationAction(s, now).ObservePublication? <==> !s.phase.CompletePhase? && s.publication.Publishing?
  {
  }

  /** A probe is ordered exactly when the candidate is neither shown good nor bad and its turn has
      come; the window only marks the probe, it decides nothing. */
  lemma ProbeExactly(s: Snapshot, now: int)
    ensures NextRotationAction(s, now).Probe? <==>
              && GateOpen(s) && s.candidate.Some?
              && ((s.phase.CandidatePhase? && !s.publication.Publishing? && !Exhausted(s))
                  || (s.phase.PublishPhase? && s.publication.Unpublished?))
              && var c := s.candidate.value;
                 && c.addressVersion == s.revisions.address && c.successThreshold >= 1 && c.failureThreshold >= 1
                 && !ShownGood(c, now) && !ShownBad(c, now) && c.nextProbeAt <= now
    ensures NextRotationAction(s, now).Probe? ==>
              NextRotationAction(s, now) ==
                  Probe(s.candidate.value.addressVersion, now >= s.candidate.value.windowEndsAt)
  {
    hide FirstOpen;
  }

  /** A wait that names a time is over at that time, and not named in vain. */
  lemma WaitEnds(s: Snapshot, now: int, t: int)
    requires NextRotationAction(s, now).Wait? && NextRotationAction(s, now).until.Some?
    ensures var action := NextRotationAction(s, now);
            && now < action.until.value
            && (t >= action.until.value ==> NextRotationAction(s, t) != action)
  {
    hide FirstOpen;
  }

  /** A pause names a fact of the snapshot. */
  lemma PauseSaysWhy(s: Snapshot, now: int)
    requires NextRotationAction(s, now).Pause?
    ensures match NextRotationAction(s, now).pause
            case LifecycleBusy => s.authorization.lifecycleBlocked
            case AuthorizationRevoked => !s.authorization.managed
            case FamilyDisabled => !s.authorization.familyEnabled
            case RegionExcluded => !s.authorization.regionAllowed
            case ConflictingManager => s.authorization.conflictingManager
            case AuthorizationChanged => s.revisions.authorization != s.expected.authorization
            case ConfigurationChanged => s.revisions.policy != s.expected.policy
            case AddressVersionChanged =>
              || s.revisions.address != s.expected.address
              || (s.candidate.Some? && s.candidate.value.addressVersion != s.revisions.address)
              || (InCleanup(s) && !PublishedCurrent(s))
            case StaleFence => s.lease.held && s.lease.revision != s.lease.expectedRevision
            case AttemptsExhausted => GateOpen(s) && (s.budget.exhausted || s.budget.used >= s.budget.max)
            case CandidateFailed =>
              && s.phase.PublishPhase? && s.candidate.Some? && OwnEvidence(s.candidate.value, now)
              && s.candidate.value.evidence.value.decision == DecidedFailure
            case DnsPartial => GateOpen(s) && s.publication.PublicationFailed?
            case CleanupNotAuthorized => s.cleanup.Required? && !s.cleanup.authorized && !AllApplied(s.cleanup.steps)
            case CleanupHasFailed =>
              s.cleanup.CleanupFailed?
              || exists k :: 0 <= k < |PhaseSteps(s)| && !PhaseSteps(s)[k].status.Applied?
                             && !PhaseSteps(s)[k].status.Prepared?
            case CloudNotApplied =>
              exists k :: 0 <= k < |PhaseSteps(s)|
                          && (PhaseSteps(s)[k].status.Abandoned? || PhaseSteps(s)[k].status.NotApplied?)
            case OwnershipAmbiguous =>
              || (s.cleanup.Required? && !s.cleanup.ownershipVerified)
              || exists k :: 0 <= k < |PhaseSteps(s)| && PhaseSteps(s)[k].status.Ambiguous?
            case CloudRefused(reason) =>
              || (reason == ResourceNotFound && !s.authorization.present)
              || exists k :: 0 <= k < |PhaseSteps(s)| && PhaseSteps(s)[k].status.Rejected?
                             && PhaseSteps(s)[k].status.reason == reason
            case InvalidSnapshot => GateOpen(s)
  {
    var steps := PhaseSteps(s);
    var k := FirstOpen(steps);
    assert OpenStep(s) == if k < |steps| then Some(steps[k]) else None;
    hide FirstOpen;
    if k < |steps| {
      assert steps[k] == PhaseSteps(s)[k];
    }
  }
}
