/** What the limiter guarantees over whole runs: any mix of writes, policy changes,
    throttles, and plan changes made by other code, in clock order. */
module CloudLimitRuns {
  import opened Wrappers
  import opened CloudLimitRules
  import opened CloudLimits
  import opened CloudLimitRetry

  datatype Event =
    | Dispatch(write: Write)
    | Policy(account: nat, percent: int, switch: Option<bool>)
    | Throttle(retryAfter: Option<int>)
    | Elsewhere(steps: map<StepId, PlanStep>, live: set<AttemptId>)

  datatype Timed = Timed(at: int, event: Event)

  /** Other code keeps plans immutable: a step keeps its place, is dispatched for good, does
      not reopen before its first dispatch, and an attempt that left the live set stays out. */
  predicate PlansKept(l: Ledger, steps: map<StepId, PlanStep>, live: set<AttemptId>) {
    && (forall s :: s in l.steps ==>
          && s in steps
          && steps[s].attempt == l.steps[s].attempt
          && steps[s].sequence == l.steps[s].sequence
          && steps[s].action == l.steps[s].action
          && (l.steps[s].dispatched ==> steps[s].dispatched)
          && (!steps[s].dispatched && steps[s].open ==> l.steps[s].open)
          && (steps[s].attempt in live ==> steps[s].attempt in l.live))
    && (forall s, known :: s in steps && s !in l.steps && known in l.steps ==>
        steps[s].attempt != l.steps[known].attempt)
  }

  predicate Legal(l: Ledger, event: Event) {
    match event
    case Dispatch(_) => true
    case Policy(account, percent, _) => account < |l.percents| && ValidPercent(percent)
    case Throttle(_) => true
    case Elsewhere(steps, live) => PlansKept(l, steps, live)
  }

  /** The same transaction marks an admitted step dispatched. */
  function MarkDispatched(l: Ledger, step: StepId): Ledger {
    if step in l.steps then l.(steps := l.steps[step := l.steps[step].(dispatched := true, open := false)]) else l
  }

  function Apply(l: Ledger, event: Event, now: int): Ledger
    requires ValidPolicies(l) && ValidCooldown(l.cooldown) && Legal(l, event)
  {
    match event
    case Dispatch(w) =>
      var (l', admission) := Reserve(l, w, now);
      if admission.Allowed? then MarkDispatched(l', w.step) else l'
    case Policy(account, percent, switch) => SetPolicy(l, account, percent, switch, now)
    case Throttle(retryAfter) => l.(cooldown := Some(Throttled(l.cooldown, retryAfter, now)))
    case Elsewhere(steps, live) => l.(steps := steps, live := live)
  }

  predicate Sane(l: Ledger, now: int) {
    && ValidPolicies(l) && ValidCooldown(l.cooldown)
    && forall key :: key in l.buckets ==> SaneRow(Some(l.buckets[key]), now)
  }

  lemma RowAt(l: Ledger, key: Key, now: int)
    requires Sane(l, now)
    ensures SaneRow(BucketAt(l, key), now)
  {
  }

  // ---------------------------------------------------------------- one write

  predicate Charges(rules: seq<Rule>, region: Region, key: Key) {
    exists i :: 0 <= i < |rules| && KeyFor(rules[i], region) == key
  }

  /** Only the rows of the write's own budgets change, each charged once. */
  lemma {:induction false} ChargedRow(l: Ledger, rules: seq<Rule>, region: Region, now: int, key: Key)
    requires DistinctIds(rules)
    ensures var after := Charged(l, rules, region, now);
            && (!Charges(rules, region, key) ==>
                  (key in after <==> key in l.buckets) && (key in after ==> after[key] == l.buckets[key]))
            && (forall i :: 0 <= i < |rules| && KeyFor(rules[i], region) == key ==>
                  key in after && after[key] == Charge(rules[i], BucketAt(l, key), now))
  {
    if rules != [] {
      var n := |rules| - 1;
      ChargedRow(l, rules[..n], region, now, key);
      if !Charges(rules, region, key) {
        assert KeyFor(rules[n], region) != key;
        assert !Charges(rules[..n], region, key);
      }
      forall i | 0 <= i < |rules| && KeyFor(rules[i], region) == key
        ensures key in Charged(l, rules, region, now)
        ensures Charged(l, rules, region, now)[key] == Charge(rules[i], BucketAt(l, key), now)
      {
        if i < n {
          assert rules[..n][i] == rules[i];
          assert KeyFor(rules[n], region) != key;
        }
      }
    }
  }

  lemma ChargeIsSane(rule: Rule, bucket: Option<Bucket>, now: int)
    requires SaneRow(bucket, now)
    ensures SaneRow(Some(Charge(rule, bucket, now)), now)
  {
    if rule.kind.SlidingWindow? && bucket.Some? {
      var events := bucket.value.events;
      var k := RecentIsSuffix(events, now - rule.kind.windowSeconds * 1000);
      assert Charge(rule, bucket, now).events == events[k..] + [now];
      forall i | k <= i < |events| ensures events[i] <= now {
        assert events[i] in events;
      }
    }
  }

  lemma WriteKeepsSane(l: Ledger, w: Write, now: int)
    requires Sane(l, now)
    ensures Sane(Reserve(l, w, now).0, now)
  {
    if Reserve(l, w, now).1.Allowed? {
      var rules := RulesInForce(l, w.action);
      PercentIsValid(l);
      RulesForActionAreSound(l.service, w.action, Percent(l));
      var after := Charged(l, rules, w.region, now);
      forall key | key in after ensures SaneRow(Some(after[key]), now) {
        ChargedRow(l, rules, w.region, now, key);
        if i :| 0 <= i < |rules| && KeyFor(rules[i], w.region) == key {
          ChargeIsSane(rules[i], BucketAt(l, key), now);
        }
      }
    }
  }

  lemma ApplyKeepsSane(l: Ledger, event: Event, t: int, now: int)
    requires Sane(l, t) && t <= now && Legal(l, event)
    ensures Sane(Apply(l, event, now), now)
  {
    assert Sane(l, now);
    match event
    case Dispatch(w) => WriteKeepsSane(l, w, now);
    case Policy(account, percent, switch) =>
      var l' := Apply(l, event, now);
      forall p | p in l'.percents ensures ValidPercent(p) {
        var i :| 0 <= i < |l'.percents| && l'.percents[i] == p;
        assert i != account ==> p == l.percents[i];
      }
    case _ =>
  }

  // ---------------------------------------------------------------- runs

  function After(l: Ledger, run: seq<Timed>): Ledger
    requires LegalRun(l, run)
    decreases |run|, 1
  {
    if run == [] then l else Apply(After(l, run[..|run| - 1]), run[|run| - 1].event, run[|run| - 1].at)
  }

  predicate LegalRun(l: Ledger, run: seq<Timed>)
    decreases |run|, 0
  {
    run != [] ==>
      && LegalRun(l, run[..|run| - 1])
      && var before := After(l, run[..|run| - 1]);
         ValidPolicies(before) && ValidCooldown(before.cooldown) && Legal(before, run[|run| - 1].event)
  }

  function End(start: int, run: seq<Timed>): int {
    if run == [] then start else run[|run| - 1].at
  }

  predicate InOrder(start: int, run: seq<Timed>) {
    run != [] ==> InOrder(start, run[..|run| - 1]) && End(start, run[..|run| - 1]) <= run[|run| - 1].at
  }

  lemma {:induction false} RunKeepsSane(l: Ledger, start: int, run: seq<Timed>)
    requires Sane(l, start) && LegalRun(l, run) && InOrder(start, run)
    ensures Sane(After(l, run), End(start, run)) && start <= End(start, run)
  {
    if run != [] {
      var n := |run| - 1;
      RunKeepsSane(l, start, run[..n]);
      ApplyKeepsSane(After(l, run[..n]), run[n].event, End(start, run[..n]), run[n].at);
    }
  }

  /** Nothing written yet, limits on: where every identity starts. */
  predicate Untouched(l: Ledger) {
    ValidPolicies(l) && l.enabled && l.cooldown == None && l.buckets == map[] && l.reservations == map[]
  }

  // ---------------------------------------------------------------- the grid over runs

  predicate Gridded(l: Ledger) {
    forall key :: key in l.buckets ==> GridRow(Some(l.buckets[key]))
  }

  lemma ChargeIsOnGrid(id: RuleId, percent: int, bucket: Option<Bucket>, now: int)
    requires GridRow(bucket)
    ensures GridRow(Some(Charge(RuleOf(id, percent), bucket, now)))
  {
    hide RuleOf, OnGrid;
    WholeIsOnGrid(0);
    WholeIsOnGrid(1);
    if RuleOf(id, percent).kind.TokenBucket? {
      DebtIsOnGrid(id, percent, bucket, now);
      GridAdds(LiveDebt(bucket, RuleOf(id, percent).kind.refillPerSecond, now), 1.0);
    }
  }

  lemma GridAt(l: Ledger, key: Key)
    requires Gridded(l)
    ensures GridRow(BucketAt(l, key))
  {
    hide OnGrid;
  }

  lemma WriteKeepsGrid(l: Ledger, w: Write, now: int)
    requires ValidPolicies(l) && Gridded(l)
    ensures Gridded(Reserve(l, w, now).0)
  {
    hide RuleOf, OnGrid, GridRow, Worst, DemandOf, TooLow, PlanMatches, PlanSupported, RulesInForce, ReservationsAfter;
    if Reserve(l, w, now).1.Allowed? {
      var rules := RulesInForce(l, w.action);
      RulesInForceAreSound(l, w.action);
      var after := Charged(l, rules, w.region, now);
      forall key | key in after ensures GridRow(Some(after[key])) {
        ChargedRow(l, rules, w.region, now, key);
        if i :| 0 <= i < |rules| && KeyFor(rules[i], w.region) == key {
          GridAt(l, key);
          ChargeIsOnGrid(rules[i].id, Percent(l), BucketAt(l, key), now);
        }
      }
    }
  }

  /** Whatever the percentages do and whenever it happens, every debt stays on the grid. */
  lemma EventKeepsGrid(l: Ledger, event: Event, now: int)
    requires ValidPolicies(l) && ValidCooldown(l.cooldown) && Legal(l, event) && Gridded(l)
    ensures Gridded(Apply(l, event, now))
  {
    hide RuleOf, OnGrid, Reserve, LiveDebt;
    match event
    case Dispatch(w) => WriteKeepsGrid(l, w, now);
    case Policy(_, _, _) =>
      forall key | key in l.buckets
        ensures GridRow(Some(SettledRow(RuleOf(key.rule, Percent(l)).kind, l.buckets[key], now)))
      {
        if RuleOf(key.rule, Percent(l)).kind.TokenBucket? {
          DebtIsOnGrid(key.rule, Percent(l), Some(l.buckets[key]), now);
        }
      }
    case _ =>
  }

  lemma {:induction false} RunKeepsGrid(l: Ledger, run: seq<Timed>)
    requires LegalRun(l, run) && Gridded(l)
    ensures Gridded(After(l, run))
  {
    hide Apply, Gridded, Legal;
    if run != [] {
      var n := |run| - 1;
      RunKeepsGrid(l, run[..n]);
      EventKeepsGrid(After(l, run[..n]), run[n].event, run[n].at);
    }
  }

  /** The event is a write that is admitted and charged to the row. */
  predicate Hits(l: Ledger, event: Event, now: int, key: Key)
    requires ValidPolicies(l)
  {
    && event.Dispatch? && Reserve(l, event.write, now).1.Allowed?
    && Charges(RulesInForce(l, event.write.action), event.write.region, key)
  }

  // ---------------------------------------------------------------- token buckets

  function Rate(l: Ledger, id: RuleId): real {
    match RuleOf(id, Percent(l)).kind
    case TokenBucket(refill) => refill
    case SlidingWindow(_) => 0.0
  }

  lemma RateIsPositive(l: Ledger, id: RuleId)
    requires ValidPolicies(l) && IsTokenBucket(id)
    ensures Rate(l, id) > 0.0 && RuleOf(id, Percent(l)).kind == TokenBucket(Rate(l, id))
  {
    PercentIsValid(l);
    RulesScale(id, Percent(l), 100);
  }

  function DebtAt(l: Ledger, key: Key, t: int): real {
    LiveDebt(BucketAt(l, key), Rate(l, key.rule), t)
  }

  function HitCount(l: Ledger, run: seq<Timed>, key: Key): nat
    requires LegalRun(l, run)
  {
    if run == [] then 0
    else
      var n := |run| - 1;
      HitCount(l, run[..n], key) + if Hits(After(l, run[..n]), run[n].event, run[n].at, key) then 1 else 0
  }

  /** What the bucket drained over the run, at the rate in force at each moment. */
  function Refilled(l: Ledger, start: int, run: seq<Timed>, key: Key): real
    requires LegalRun(l, run)
  {
    if run == [] then 0.0
    else
      var n := |run| - 1;
      Refilled(l, start, run[..n], key)
      + Seconds(End(start, run[..n]), run[n].at) * Rate(After(l, run[..n]), key.rule)
  }

  predicate IsTokenBucket(id: RuleId) { RuleOf(id, 100).kind.TokenBucket? }

  lemma {:induction false} ChargedDebt(l: Ledger, rules: seq<Rule>, region: Region, now: int, key: Key, rate: real)
    requires DistinctIds(rules)
    requires forall i :: 0 <= i < |rules| && KeyFor(rules[i], region) == key ==> rules[i].kind == TokenBucket(rate)
    ensures var l' := l.(buckets := Charged(l, rules, region, now));
            LiveDebt(BucketAt(l', key), rate, now) ==
            LiveDebt(BucketAt(l, key), rate, now) + if Charges(rules, region, key) then 1.0 else 0.0
  {
    ChargedRow(l, rules, region, now, key);
    assert Seconds(now, now) == 0.0;
    if Charges(rules, region, key) {
      var i :| 0 <= i < |rules| && KeyFor(rules[i], region) == key;
      assert rules[i].kind == TokenBucket(rate);
    }
  }

  lemma RulesInForceAreSound(l: Ledger, action: Action)
    requires ValidPolicies(l) && Supported(l.service, action)
    ensures var rules := RulesInForce(l, action);
            DistinctIds(rules) && forall i :: 0 <= i < |rules| ==> rules[i] == RuleOf(rules[i].id, Percent(l))
  {
    PercentIsValid(l);
    RulesForActionAreSound(l.service, action, Percent(l));
  }

  lemma WriteChangesDebt(l: Ledger, w: Write, now: int, key: Key)
    requires Sane(l, now) && IsTokenBucket(key.rule)
    ensures DebtAt(Reserve(l, w, now).0, key, now) ==
            DebtAt(l, key, now) + if Hits(l, Dispatch(w), now, key) then 1.0 else 0.0
  {
    hide RuleOf, Worst, Charged, DemandOf, TooLow, PlanMatches, PlanSupported, Lowest, RulesInForce, LiveDebt,
      BucketAt, ReservationsAfter;
    if Reserve(l, w, now).1.Allowed? {
      var rules := RulesInForce(l, w.action);
      RulesInForceAreSound(l, w.action);
      RateIsPositive(l, key.rule);
      ChargedDebt(l, rules, w.region, now, key, Rate(l, key.rule));
      assert Percent(Reserve(l, w, now).0) == Percent(l);
      DebtReadsRow(l.(buckets := Charged(l, rules, w.region, now)), Reserve(l, w, now).0, key);
    }
  }

  lemma DebtReadsRow(l: Ledger, l': Ledger, key: Key)
    requires l.buckets == l'.buckets
    ensures BucketAt(l, key) == BucketAt(l', key)
  {
  }

  lemma PolicyKeepsDebt(l: Ledger, account: nat, percent: int, switch: Option<bool>, now: int, key: Key)
    requires Sane(l, now) && account < |l.percents| && IsTokenBucket(key.rule)
    ensures DebtAt(SetPolicy(l, account, percent, switch, now), key, now) == DebtAt(l, key, now)
  {
    hide RuleOf, Percent;
    RateIsPositive(l, key.rule);
    var l' := SetPolicy(l, account, percent, switch, now);
    assert l'.buckets.Keys == l.buckets.Keys;
    if key in l.buckets {
      var rate := Rate(l, key.rule);
      assert l'.buckets[key] == SettledRow(TokenBucket(rate), l.buckets[key], now);
      assert Seconds(now, now) * Rate(l', key.rule) == 0.0;
    }
  }

  /** A write adds one to its bucket; nothing else changes what the bucket owes, and a
      policy change does not reprice the time that already passed. */
  lemma EventChangesDebt(l: Ledger, event: Event, now: int, key: Key)
    requires Sane(l, now) && Legal(l, event) && IsTokenBucket(key.rule)
    ensures DebtAt(Apply(l, event, now), key, now) ==
            DebtAt(l, key, now) + if Hits(l, event, now, key) then 1.0 else 0.0
  {
    match event
    case Dispatch(w) => WriteChangesDebt(l, w, now, key);
    case Policy(account, percent, switch) => PolicyKeepsDebt(l, account, percent, switch, now, key);
    case _ =>
  }

  lemma DebtIsNotNegative(bucket: Option<Bucket>, rate: real, t: int)
    ensures LiveDebt(bucket, rate, t) >= 0.0
  {
  }

  lemma RowIsPast(l: Ledger, key: Key, t: int, now: int)
    requires Sane(l, t) && t <= now
    ensures Sane(l, now) && (BucketAt(l, key).Some? ==> BucketAt(l, key).value.updatedAt <= t)
  {
  }

  lemma {:induction false} DebtCoversHits(l: Ledger, start: int, run: seq<Timed>, key: Key)
    requires Sane(l, start) && LegalRun(l, run) && InOrder(start, run) && IsTokenBucket(key.rule)
    ensures DebtAt(After(l, run), key, End(start, run)) + Refilled(l, start, run, key) >= HitCount(l, run, key) as real
  {
    hide RuleOf, Reserve, Lowest, LiveDebt, Apply, Charges, SaneRow;
    if run == [] {
      DebtIsNotNegative(BucketAt(l, key), Rate(l, key.rule), start);
    } else {
      var n := |run| - 1;
      var before := After(l, run[..n]);
      var t := End(start, run[..n]);
      DebtCoversHits(l, start, run[..n], key);
      RunKeepsSane(l, start, run[..n]);
      RateIsPositive(before, key.rule);
      RowIsPast(before, key, t, run[n].at);
      DebtDrains(BucketAt(before, key), Rate(before, key.rule), t, run[n].at);
      EventChangesDebt(before, run[n].event, run[n].at, key);
    }
  }

  /** The tolerance of the comparison lets nothing over the capacity. */
  lemma AdmissionFits(l: Ledger, event: Event, now: int, key: Key)
    requires Sane(l, now) && Gridded(l) && l.enabled && Hits(l, event, now, key) && IsTokenBucket(key.rule)
    ensures DebtAt(l, key, now) + 1.0 <= RuleOf(key.rule, Percent(l)).capacity as real
  {
    hide RuleOf, OnGrid, Charged, DemandOf, TooLow, PlanMatches, PlanSupported, Lowest, RulesInForce, ReservationsAfter,
        LiveDebt;
    var w := event.write;
    var rules, d := RulesInForce(l, w.action), DemandOf(l, w);
    RulesInForceAreSound(l, w.action);
    RateIsPositive(l, key.rule);
    WorstIsLatest(l, rules, w.region, d, now);
    var i :| 0 <= i < |rules| && KeyFor(rules[i], w.region) == key;
    assert !RuleRefuses(l, rules[i], w.region, d, now);
    GridAt(l, key);
    ToleranceDecidesExactly(key.rule, Percent(l), BucketAt(l, key), d, now, 0.0);
  }

  lemma {:induction false} LastAdmissionFits(l: Ledger, start: int, run: seq<Timed>, event: Event, now: int, key: Key)
    requires Sane(l, start) && Gridded(l) && LegalRun(l, run) && InOrder(start, run) && End(start, run) <= now
    requires IsTokenBucket(key.rule) && ValidPolicies(After(l, run)) && After(l, run).enabled
    requires Hits(After(l, run), event, now, key)
    ensures HitCount(l, run, key) as real + 1.0 <=
            RuleOf(key.rule, Percent(After(l, run))).capacity as real
            + Refilled(l, start, run, key) + Seconds(End(start, run), now) * Rate(After(l, run), key.rule)
  {
    hide RuleOf, Reserve, LiveDebt, Apply, Charges, SaneRow, Hits, Percent, Legal, IsTokenBucket, ValidPolicies,
        Gridded;
    var before := After(l, run);
    var t := End(start, run);
    DebtCoversHits(l, start, run, key);
    RunKeepsSane(l, start, run);
    RunKeepsGrid(l, run);
    RateIsPositive(before, key.rule);
    RowIsPast(before, key, t, now);
    DebtDrains(BucketAt(before, key), Rate(before, key.rule), t, now);
    AdmissionFits(before, event, now, key);
  }

  /** Over every interval that ends in an admission under enabled limits, the writes charged to
      a token bucket number at most its capacity then, plus what it refilled in the interval.
      The interval may start in any state the limiter wrote and contain any policy changes. */
  lemma {:induction false} TokenBucketBound(l: Ledger, start: int, run: seq<Timed>, key: Key)
    requires Sane(l, start) && Gridded(l) && LegalRun(l, run) && InOrder(start, run) && IsTokenBucket(key.rule)
    requires run != [] && After(l, run[..|run| - 1]).enabled
    requires Hits(After(l, run[..|run| - 1]), run[|run| - 1].event, run[|run| - 1].at, key)
    ensures var capacity := RuleOf(key.rule, Percent(After(l, run[..|run| - 1]))).capacity;
            HitCount(l, run, key) as real <= capacity as real + Refilled(l, start, run, key)
  {
    hide RuleOf, Apply, Sane, Gridded, Hits, Percent, Legal, IsTokenBucket, Rate, Seconds;
    var n := |run| - 1;
    LastAdmissionFits(l, start, run[..n], run[n].event, run[n].at, key);
    assert HitCount(l, run, key) == HitCount(l, run[..n], key) + 1;
  }

  // ---------------------------------------------------------------- the time a refusal names

  /** Some rule that refuses the write is held shut by reservations, whatever time passes. */
  predicate HeldByReservations(l: Ledger, w: Write, now: int)
    requires ValidPolicies(l) && Supported(l.service, w.action)
  {
    var rules, d := RulesInForce(l, w.action), DemandOf(l, w);
    exists i :: 0 <= i < |rules| && RuleRefuses(l, rules[i], w.region, d, now) && !Drains(rules[i], d)
  }

  lemma RowsOfWrite(l: Ledger, w: Write, now: int)
    requires Sane(l, now) && Gridded(l) && Supported(l.service, w.action)
    ensures RowsSane(l, RulesInForce(l, w.action), Percent(l), w.region, now)
  {
    hide RuleOf, OnGrid, Lowest, SaneRow, RulesInForce, Percent;
    var rules := RulesInForce(l, w.action);
    RulesInForceAreSound(l, w.action);
    PercentIsValid(l);
    forall i | 0 <= i < |rules|
      ensures SaneRow(BucketAt(l, KeyFor(rules[i], w.region)), now) && GridRow(BucketAt(l, KeyFor(rules[i], w.region)))
    {
      RowAt(l, KeyFor(rules[i], w.region), now);
      GridAt(l, KeyFor(rules[i], w.region));
    }
  }

  /** A write refused for its budgets and tried again later, nothing else having happened, is
      admitted exactly from the named time on, unless reservations hold it shut. */
  lemma RetryAdmits(l: Ledger, w: Write, now: int, t: int)
    requires Sane(l, now) && Gridded(l) && l.enabled && now <= t
    requires Reserve(l, w, now).1.Denied? && Reserve(l, w, now).1.reason.Budget?
    ensures Supported(l.service, w.action) && Reserve(l, w, now).1.retryAt > now
    ensures Reserve(l, w, t).1.Allowed? <==> t >= Reserve(l, w, now).1.retryAt && !HeldByReservations(l, w, now)
  {
    hide RuleOf, OnGrid, Charged, DemandOf, PlanMatches, PlanSupported, Lowest, RulesInForce, ReservationsAfter,
        Gridded,
      SaneRow, Worst, RuleRefuses, Drains, TooLow, RowsSane;
    RowsOfWrite(l, w, now);
    ReportedTimeAdmits(l, RulesInForce(l, w.action), Percent(l), w.region, DemandOf(l, w), now, t);
  }

  /** In every state the limiter ever reaches, the time a refusal names is exact to the
      millisecond: without other traffic the write is refused at every moment before it and
      admitted at every moment from it on, unless reservations hold it shut. */
  lemma {:induction false} RefusalsNameTheMoment(l: Ledger, start: int, run: seq<Timed>, w: Write, now: int, t: int)
    requires Untouched(l) && LegalRun(l, run) && InOrder(start, run) && End(start, run) <= now <= t
    requires After(l, run).enabled && ValidPolicies(After(l, run))
    requires Reserve(After(l, run), w, now).1.Denied? && Reserve(After(l, run), w, now).1.reason.Budget?
    ensures Supported(After(l, run).service, w.action)
    ensures var s := After(l, run);
            Reserve(s, w, t).1.Allowed? <==> t >= Reserve(s, w, now).1.retryAt && !HeldByReservations(s, w, now)
  {
    hide Reserve, Apply, Legal, RuleOf, HeldByReservations, Lowest;
    RunKeepsSane(l, start, run);
    RunKeepsGrid(l, run);
    RetryAdmits(After(l, run), w, now, t);
  }

  // ---------------------------------------------------------------- pauses over runs

  lemma {:induction false} PrefixIsLegal(l: Ledger, run: seq<Timed>, i: nat)
    requires LegalRun(l, run) && i <= |run|
    ensures LegalRun(l, run[..i])
  {
    if i < |run| {
      assert run[..|run| - 1][..i] == run[..i];
      PrefixIsLegal(l, run[..|run| - 1], i);
    } else {
      assert run[..i] == run;
    }
  }

  function PauseEnd(l: Ledger): Option<int> {
    if l.cooldown.Some? then Some(l.cooldown.value.until) else None
  }

  predicate PausedTo(l: Ledger, until: int) {
    l.cooldown.Some? && l.cooldown.value.until >= until
  }

  lemma EventKeepsPause(l: Ledger, event: Event, now: int, until: int)
    requires ValidPolicies(l) && ValidCooldown(l.cooldown) && Legal(l, event) && PausedTo(l, until)
    ensures PausedTo(Apply(l, event, now), until)
    ensures now < until && event.Dispatch? ==> !Reserve(l, event.write, now).1.Allowed? && Apply(l, event, now) == l
  {
    hide Backoff, Worst, Charged, DemandOf, TooLow, PlanMatches, PlanSupported, RulesInForce, ReservationsAfter, Legal;
  }

  lemma {:induction false} RunKeepsPause(l: Ledger, run: seq<Timed>, i: nat, j: nat, until: int)
    requires LegalRun(l, run) && i <= j <= |run|
    requires LegalRun(l, run[..i]) && PausedTo(After(l, run[..i]), until)
    ensures LegalRun(l, run[..j]) && PausedTo(After(l, run[..j]), until)
    decreases j
  {
    hide Apply, Legal, PausedTo;
    PrefixIsLegal(l, run, j);
    if i < j {
      RunKeepsPause(l, run, i, j - 1, until);
      assert run[..j][..j - 1] == run[..j - 1];
      EventKeepsPause(After(l, run[..j - 1]), run[j - 1].event, run[j - 1].at, until);
    }
  }

  /** A throttle pauses all writes of the identity for a minute at least. Whatever happens then,
      further throttles and policy changes included, no write of the run is admitted, and none
      changes anything, before the pause it recorded is over. */
  lemma {:induction false} PausedUntilTheEnd(l: Ledger, run: seq<Timed>, i: nat, j: nat)
    requires LegalRun(l, run) && i < j < |run| && run[i].event.Throttle?
    ensures LegalRun(l, run[..i + 1]) && LegalRun(l, run[..j]) && LegalRun(l, run[..j + 1])
    ensures var until := PauseEnd(After(l, run[..i + 1]));
            && until.Some? && until.value >= run[i].at + 60000
            && (run[j].event.Dispatch? && run[j].at < until.value ==>
                  && ValidPolicies(After(l, run[..j]))
                  && !Reserve(After(l, run[..j]), run[j].event.write, run[j].at).1.Allowed?
                  && After(l, run[..j + 1]) == After(l, run[..j]))
  {
    hide Reserve, Legal;
    PrefixIsLegal(l, run, i + 1);
    PrefixIsLegal(l, run, j + 1);
    assert run[..i + 1][..i] == run[..i] && run[..j + 1][..j] == run[..j];
    var until := PauseEnd(After(l, run[..i + 1])).value;
    RunKeepsPause(l, run, i + 1, j, until);
    hide Apply;
    EventKeepsPause(After(l, run[..j]), run[j].event, run[j].at, until);
  }

  // ---------------------------------------------------------------- refusals leave no trace

  lemma RefusalChangesNothing(l: Ledger, w: Write, now: int)
    requires ValidPolicies(l) && ValidCooldown(l.cooldown) && !Reserve(l, w, now).1.Allowed?
    ensures Apply(l, Dispatch(w), now) == l
  {
    hide RuleOf, Worst, Charged, Lowest, DemandOf, ReservationsAfter, TooLow, PlanMatches, PlanSupported, RulesInForce;
  }

  /** The run without the writes that were refused or failed. */
  function Effective(l: Ledger, run: seq<Timed>): seq<Timed>
    requires LegalRun(l, run)
  {
    if run == [] then []
    else
      var n := |run| - 1;
      var event := run[n].event;
      Effective(l, run[..n])
      + if event.Dispatch? && !Reserve(After(l, run[..n]), event.write, run[n].at).1.Allowed? then [] else [run[n]]
  }

  /** Asking in vain costs nothing: a run leaves all tables as it would without the writes that were
      not admitted, however many there were and whenever they came. */
  lemma {:induction false} RefusalsLeaveNoTrace(l: Ledger, run: seq<Timed>)
    requires LegalRun(l, run)
    ensures LegalRun(l, Effective(l, run)) && After(l, Effective(l, run)) == After(l, run)
  {
    hide Apply, Legal, Reserve, ValidPolicies, ValidCooldown;
    if run != [] {
      var n := |run| - 1;
      var front := Effective(l, run[..n]);
      RefusalsLeaveNoTrace(l, run[..n]);
      var event := run[n].event;
      if event.Dispatch? && !Reserve(After(l, run[..n]), event.write, run[n].at).1.Allowed? {
        RefusalChangesNothing(After(l, run[..n]), event.write, run[n].at);
        assert Effective(l, run) == front;
      } else {
        assert Effective(l, run) == front + [run[n]];
        assert (front + [run[n]])[..|front|] == front;
      }
    }
  }
}
