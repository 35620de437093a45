/** Round decisions become a health state with hysteresis, and the state is read back off the
    history of decisions. */
module HealthState {
  import opened Wrappers
  import opened ProbeConsensus

  datatype State = Unproven | Healthy | Degraded | Unhealthy | Recovering

  type RoundId = string

  datatype Health = Health(state: State, successes: nat, failures: nat, lastRound: Option<RoundId>)

  datatype Thresholds = Thresholds(failure: int, success: int)

  datatype HealthError = EmptyRoundId | BadThreshold

  predicate Usable(t: Thresholds) {
    t.failure >= 1 && t.success >= 1
  }

  /** A health record nobody has reported on. */
  const FRESH := Health(Unproven, 0, 0, None)

  function ApplyHealthResult(current: Health, success: bool, t: Thresholds): Result<Health, HealthError> {
    if !Usable(t) then Err(BadThreshold)
    else if success then
      var successes := current.successes + 1;
      var becomesHealthy := successes >= t.success;
      var state :=
        match current.state
        case Healthy => Healthy
        case Unhealthy => if becomesHealthy then Healthy else Recovering
        case Recovering => if becomesHealthy then Healthy else Recovering
        case Degraded => if becomesHealthy then Healthy else Degraded
        case Unproven => if becomesHealthy then Healthy else Unproven;
      Ok(current.(state := state, successes := successes, failures := 0))
    else
      var failures := current.failures + 1;
      var becomesUnhealthy := failures >= t.failure;
      var state :=
        match current.state
        case Unhealthy => Unhealthy
        case Recovering => Unhealthy
        case Healthy => if becomesUnhealthy then Unhealthy else Degraded
        case Degraded => if becomesUnhealthy then Unhealthy else Degraded
        case Unproven => if becomesUnhealthy then Unhealthy else Unproven;
      Ok(current.(state := state, successes := 0, failures := failures))
  }

  /** Redelivery of the round just applied changes nothing, whatever it carries. */
  function AdvanceRoundHealth(
    current: Health, id: RoundId, decision: Decision, t: Thresholds): Result<Health, HealthError>
  {
    if id == "" then Err(EmptyRoundId)
    else if current.lastRound == Some(id) then Ok(current)
    else if !Usable(t) then Err(BadThreshold)
    else if decision.Unknown? then Ok(current.(successes := 0, failures := 0, lastRound := Some(id)))
    else
      match ApplyHealthResult(current, decision.DecidedSuccess?, t)
      case Ok(next) => Ok(next.(lastRound := Some(id)))
      case Err(e) => Err(e)
  }

  datatype Round = Round(id: RoundId, decision: Decision)

  /** The record after the first `n` rounds. */
  function Fold(rounds: seq<Round>, n: nat, t: Thresholds): Health
    requires n <= |rounds| && Usable(t) && forall i :: 0 <= i < |rounds| ==> rounds[i].id != ""
  {
    if n == 0 then FRESH
    else AdvanceRoundHealth(Fold(rounds, n - 1, t), rounds[n - 1].id, rounds[n - 1].decision, t).value
  }

  // ---------------------------------------------------------------- history

  type History = seq<Decision>

  function Threshold(t: Thresholds, d: Decision): int {
    if d.DecidedFailure? then t.failure else t.success
  }

  /** Length of the run of `d` that ends the first `n` decisions. */
  function Suffix(h: History, n: nat, d: Decision): nat
    requires n <= |h|
  {
    if n == 0 || h[n - 1] != d then 0 else 1 + Suffix(h, n - 1, d)
  }

  /** The `k` first decisions end with a run of `d` as long as its threshold. */
  predicate Completed(h: History, k: nat, d: Decision, t: Thresholds)
    requires Usable(t)
  {
    && Threshold(t, d) <= k <= |h|
    && forall i :: k - Threshold(t, d) <= i < k ==> h[i] == d
  }

  predicate AnyCompleted(h: History, k: nat, t: Thresholds)
    requires Usable(t)
  {
    Completed(h, k, DecidedSuccess, t) || Completed(h, k, DecidedFailure, t)
  }

  /** The latest threshold run completed within the first `n` decisions is a run of `d`, at `k`. */
  ghost predicate LatestAt(h: History, n: nat, k: nat, d: Decision, t: Thresholds)
    requires Usable(t) && n <= |h|
  {
    && k <= n && Completed(h, k, d, t)
    && forall m: nat :: k < m <= n ==> !AnyCompleted(h, m, t)
  }

  predicate Occurs(h: History, from: nat, n: nat, d: Decision)
    requires n <= |h|
  {
    exists i :: from <= i < n && h[i] == d
  }

  /** The last decision that was not unknown. */
  function LastKnown(h: History, n: nat): Decision
    requires n <= |h|
  {
    if n == 0 then Unknown else if h[n - 1].Unknown? then LastKnown(h, n - 1) else h[n - 1]
  }

  /** What the history alone says the state is. */
  ghost predicate ReadsAs(h: History, n: nat, t: Thresholds, state: State)
    requires Usable(t) && n <= |h|
  {
    match state
    case Unproven => forall m: nat :: m <= n ==> !AnyCompleted(h, m, t)
    case Healthy => exists k: nat :: LatestAt(h, n, k, DecidedSuccess, t) && !Occurs(h, k, n, DecidedFailure)
    case Degraded => exists k: nat :: LatestAt(h, n, k, DecidedSuccess, t) && Occurs(h, k, n, DecidedFailure)
    case Unhealthy => (exists k: nat :: LatestAt(h, n, k, DecidedFailure, t)) && LastKnown(h, n).DecidedFailure?
    case Recovering => (exists k: nat :: LatestAt(h, n, k, DecidedFailure, t)) && LastKnown(h, n).DecidedSuccess?
  }

  function Decisions(rounds: seq<Round>): History {
    seq(|rounds|, i requires 0 <= i < |rounds| => rounds[i].decision)
  }

  /** No round is delivered twice in a row. */
  predicate Delivered(rounds: seq<Round>) {
    && (forall i :: 0 <= i < |rounds| ==> rounds[i].id != "")
    && (forall i :: 0 < i < |rounds| ==> rounds[i - 1].id != rounds[i].id)
  }

  lemma {:induction false} SuffixCompletes(h: History, n: nat, d: Decision, t: Thresholds)
    requires n <= |h| && Usable(t) && !d.Unknown?
    ensures Suffix(h, n, d) >= Threshold(t, d) <==> Completed(h, n, d, t)
  {
    SuffixIsARun(h, n, d);
  }

  lemma {:induction false} SuffixIsARun(h: History, n: nat, d: Decision)
    requires n <= |h|
    ensures Suffix(h, n, d) <= n
    ensures forall i :: n - Suffix(h, n, d) <= i < n ==> h[i] == d
    ensures Suffix(h, n, d) < n ==> h[n - Suffix(h, n, d) - 1] != d
  {
    if n > 0 && h[n - 1] == d {
      SuffixIsARun(h, n - 1, d);
    }
  }

  /** What every round changes, as a step of the history reading. */
  ghost predicate Agrees(health: Health, h: History, n: nat, t: Thresholds)
    requires Usable(t) && n <= |h|
  {
    && health.successes == Suffix(h, n, DecidedSuccess) && health.failures == Suffix(h, n, DecidedFailure)
    && ReadsAs(h, n, t, health.state)
  }

  lemma KnownStays(h: History, n: nat, k: nat, d: Decision, t: Thresholds)
    requires Usable(t) && n < |h| && LatestAt(h, n, k, d, t) && !AnyCompleted(h, n + 1, t)
    ensures LatestAt(h, n + 1, k, d, t)
    ensures forall x :: Occurs(h, k, n + 1, x) <==> Occurs(h, k, n, x) || h[n] == x
  {
  }

  lemma {:induction false} KnownStarts(h: History, n: nat, d: Decision, t: Thresholds)
    requires Usable(t) && n <= |h| && Completed(h, n, d, t) && !d.Unknown?
    ensures LatestAt(h, n, n, d, t) && !Occurs(h, n, n, DecidedFailure)
    ensures n > 0 && h[n - 1] == d && LastKnown(h, n) == d
  {
  }

  lemma OneStep(health: Health, h: History, n: nat, id: RoundId, t: Thresholds)
    requires Usable(t) && n < |h| && Agrees(health, h, n, t) && id != "" && health.lastRound != Some(id)
    ensures Agrees(AdvanceRoundHealth(health, id, h[n], t).value, h, n + 1, t)
  {
    SuffixCompletes(h, n + 1, DecidedSuccess, t);
    SuffixCompletes(h, n + 1, DecidedFailure, t);
    if AnyCompleted(h, n + 1, t) {
      KnownStarts(h, n + 1, h[n], t);
    } else if !health.state.Unproven? {
      var d := if health.state.Healthy? || health.state.Degraded? then DecidedSuccess else DecidedFailure;
      var k: nat :| LatestAt(h, n, k, d, t)
                    && (health.state.Healthy? ==> !Occurs(h, k, n, DecidedFailure))
                    && (health.state.Degraded? ==> Occurs(h, k, n, DecidedFailure));
      KnownStays(h, n, k, d, t);
    }
  }

  /** Folding any delivered rounds from a fresh record gives exactly the state and counters
      that the history of their decisions reads as. */
  lemma {:induction false} HealthIsItsHistory(rounds: seq<Round>, n: nat, t: Thresholds)
    requires n <= |rounds| && Usable(t) && Delivered(rounds)
    ensures Agrees(Fold(rounds, n, t), Decisions(rounds), n, t)
    ensures n > 0 ==> Fold(rounds, n, t).lastRound == Some(rounds[n - 1].id)
    ensures n == 0 ==> Fold(rounds, n, t).lastRound == None
  {
    if n > 0 {
      HealthIsItsHistory(rounds, n - 1, t);
      OneStep(Fold(rounds, n - 1, t), Decisions(rounds), n - 1, rounds[n - 1].id, t);
    }
  }

  lemma LatestIsUnique(h: History, n: nat, j: nat, x: Decision, k: nat, y: Decision, t: Thresholds)
    requires Usable(t) && n <= |h| && !x.Unknown? && !y.Unknown?
    requires LatestAt(h, n, j, x, t) && LatestAt(h, n, k, y, t)
    ensures j == k && x == y
  {
    assert AnyCompleted(h, j, t) && AnyCompleted(h, k, t);
    assert h[j - 1] == x && h[k - 1] == y;
  }

  /** The reading is unambiguous: a history reads as one state only. */
  lemma ReadingIsUnique(h: History, n: nat, t: Thresholds, a: State, b: State)
    requires Usable(t) && n <= |h| && ReadsAs(h, n, t, a) && ReadsAs(h, n, t, b)
    ensures a == b
  {
    if a.Unproven? || b.Unproven? {
      assert forall k: nat, d :: LatestAt(h, n, k, d, t) && !d.Unknown? ==> AnyCompleted(h, k, t);
    } else {
      var x := if a.Healthy? || a.Degraded? then DecidedSuccess else DecidedFailure;
      var y := if b.Healthy? || b.Degraded? then DecidedSuccess else DecidedFailure;
      var j: nat :| LatestAt(h, n, j, x, t) && (a.Healthy? ==> !Occurs(h, j, n, DecidedFailure))
                    && (a.Degraded? ==> Occurs(h, j, n, DecidedFailure));
      var k: nat :| LatestAt(h, n, k, y, t) && (b.Healthy? ==> !Occurs(h, k, n, DecidedFailure))
                    && (b.Degraded? ==> Occurs(h, k, n, DecidedFailure));
      LatestIsUnique(h, n, j, x, k, y, t);
    }
  }

  // ---------------------------------------------------------------- redelivery

  /** The first `n` rounds with back-to-back redeliveries dropped. */
  function Once(rounds: seq<Round>, n: nat): seq<Round>
    requires n <= |rounds|
  {
    if n == 0 then []
    else
      var before := Once(rounds, n - 1);
      if before != [] && before[|before| - 1].id == rounds[n - 1].id then before else before + [rounds[n - 1]]
  }

  lemma {:induction false} OnceIsDelivered(rounds: seq<Round>, n: nat)
    requires n <= |rounds| && forall i :: 0 <= i < |rounds| ==> rounds[i].id != ""
    ensures Delivered(Once(rounds, n))
  {
    if n > 0 {
      OnceIsDelivered(rounds, n - 1);
    }
  }

  lemma {:induction false} FoldOfPrefix(a: seq<Round>, b: seq<Round>, n: nat, t: Thresholds)
    requires Usable(t) && n <= |a| && n <= |b| && (forall i :: 0 <= i < n ==> a[i] == b[i])
    requires (forall i :: 0 <= i < |a| ==> a[i].id != "") && forall i :: 0 <= i < |b| ==> b[i].id != ""
    ensures Fold(a, n, t) == Fold(b, n, t)
  {
    if n > 0 {
      FoldOfPrefix(a, b, n - 1, t);
    }
  }

  /** A round reported again before the next one leaves no trace, so the record of any
      deliveries is the reading of the rounds delivered once each. */
  lemma {:induction false} RedeliveryLeavesNoTrace(rounds: seq<Round>, n: nat, t: Thresholds)
    requires n <= |rounds| && Usable(t) && forall i :: 0 <= i < |rounds| ==> rounds[i].id != ""
    ensures var once := Once(rounds, n);
            && Delivered(once) && Fold(rounds, n, t) == Fold(once, |once|, t)
            && Agrees(Fold(rounds, n, t), Decisions(once), |once|, t)
  {
    hide Agrees, ReadsAs, Delivered, Decisions;
    OnceIsDelivered(rounds, n);
    var once := Once(rounds, n);
    HealthIsItsHistory(once, |once|, t);
    if n > 0 {
      RedeliveryLeavesNoTrace(rounds, n - 1, t);
      var before := Once(rounds, n - 1);
      HealthIsItsHistory(before, |before|, t);
      if once != before {
        FoldOfPrefix(before, once, |before|, t);
      }
    }
  }
}
