/** A refusal names the moment from which the write would be admitted. */
module CloudLimitRetry {
  import opened Wrappers
  import opened CloudLimitRules
  import opened CloudLimits

  /** How far a write overshoots a budget at time `t`, the rows being left alone. */
  function Excess(rule: Rule, bucket: Option<Bucket>, d: Demand, t: int): real {
    Used(rule, bucket, d, t) + Required(rule, d) as real - rule.capacity as real
  }

  predicate Sorted(events: seq<int>) {
    forall i, j :: 0 <= i < j < |events| ==> events[i] <= events[j]
  }

  /** A row as the code leaves it: written in the past, with its events in clock order. */
  predicate SaneRow(bucket: Option<Bucket>, now: int) {
    bucket.Some? ==>
      && bucket.value.updatedAt <= now && bucket.value.debt >= 0.0
      && Sorted(bucket.value.events)
      && forall e :: e in bucket.value.events ==> e <= bucket.value.updatedAt
  }

  /** Waiting alone can free this budget: it is not held by reservations. */
  predicate Drains(rule: Rule, d: Demand) {
    rule.kind.SlidingWindow? ==> d.outstanding + Required(rule, d) <= rule.capacity
  }

  // ---------------------------------------------------------------- events leave in order

  lemma LastJoins(events: seq<int>, k: nat)
    requires k < |events|
    ensures events[..|events| - 1][k..] + [events[|events| - 1]] == events[k..]
  {
  }

  lemma {:induction false} RecentIsSuffix(events: seq<int>, cut: int) returns (k: nat)
    requires Sorted(events)
    ensures k <= |events| && Recent(events, cut) == events[k..]
    ensures forall i :: 0 <= i < k ==> events[i] <= cut
    ensures forall i :: k <= i < |events| ==> events[i] > cut
  {
    if events == [] {
      k := 0;
    } else {
      var n := |events| - 1;
      k := RecentIsSuffix(events[..n], cut);
      if events[n] > cut {
        LastJoins(events, k);
      } else {
        NothingAfter(events, k, cut);
        k := n + 1;
      }
    }
  }

  lemma NothingAfter(events: seq<int>, k: nat, cut: int)
    requires Sorted(events) && k < |events| && events[|events| - 1] <= cut
    requires forall i :: k <= i < |events| - 1 ==> events[i] > cut
    ensures k == |events| - 1 && events[..k][k..] == []
  {
    assert events[k] <= events[|events| - 1];
  }

  /** Cutting later leaves fewer events, and cutting again at the later time is the same. */
  lemma {:induction false} RecentTwice(events: seq<int>, cut: int, later: int)
    requires cut <= later
    ensures Recent(Recent(events, cut), later) == Recent(events, later)
    ensures |Recent(events, later)| <= |Recent(events, cut)|
  {
    if events != [] {
      var n := |events| - 1;
      RecentTwice(events[..n], cut, later);
      var kept := Recent(events[..n], cut);
      if events[n] > cut {
        assert (kept + [events[n]])[..|kept|] == kept;
      }
    }
  }

  lemma Milliseconds(refill: real, excess: real, ms: int)
    requires refill > 0.0
    ensures ms as real / 1000.0 * refill >= excess <==> ms >= Ceiling(excess / refill * 1000.0)
  {
    var need := excess / refill * 1000.0;
    assert need / 1000.0 * refill == excess;
    var m := ms as real;
    if m >= need {
      assert (m - need) / 1000.0 * refill >= 0.0;
      assert m / 1000.0 * refill == need / 1000.0 * refill + (m - need) / 1000.0 * refill;
    } else {
      assert (need - m) / 1000.0 * refill > 0.0;
      assert need / 1000.0 * refill == m / 1000.0 * refill + (need - m) / 1000.0 * refill;
    }
  }

  /** Later readings of a debt differ by what was refilled in between, down to nothing. */
  lemma DebtDrains(bucket: Option<Bucket>, refill: real, t: int, later: int)
    requires refill >= 0.0 && t <= later && (bucket.Some? ==> bucket.value.updatedAt <= t)
    ensures var left := LiveDebt(bucket, refill, t) - Seconds(t, later) * refill;
            && (LiveDebt(bucket, refill, t) > 0.0 ==>
                LiveDebt(bucket, refill, later) == if left < 0.0 then 0.0 else left)
            && left <= LiveDebt(bucket, refill, later) <= LiveDebt(bucket, refill, t)
  {
    var dt := Seconds(t, later);
    assert dt * refill >= 0.0;
    if bucket.Some? {
      var past := Seconds(bucket.value.updatedAt, t);
      assert Seconds(bucket.value.updatedAt, later) == past + dt;
      assert (past + dt) * refill == past * refill + dt * refill;
    }
  }

  lemma ExcessShrinks(rule: Rule, bucket: Option<Bucket>, d: Demand, t: int, later: int)
    requires WellFormed(rule) && SaneRow(bucket, t) && t <= later
    ensures Excess(rule, bucket, d, later) <= Excess(rule, bucket, d, t)
  {
    match rule.kind
    case TokenBucket(refill) => DebtDrains(bucket, refill, t, later);
    case SlidingWindow(window) =>
      if bucket.Some? {
        RecentTwice(bucket.value.events, t - window * 1000, later - window * 1000);
      }
  }

  lemma TokenRetryIsExact(rule: Rule, bucket: Option<Bucket>, d: Demand, now: int, t: int)
    requires WellFormed(rule) && rule.kind.TokenBucket? && SaneRow(bucket, now)
    requires Excess(rule, bucket, d, now) > 0.0 && now <= t
    ensures Excess(rule, bucket, d, t) <= 0.0 <==>
            t >= RetryTime(rule, bucket, d.outstanding, Required(rule, d), now)
  {
    var refill := rule.kind.refillPerSecond;
    DebtDrains(bucket, refill, now, t);
    Milliseconds(refill, Excess(rule, bucket, d, now), t - now);
  }

  lemma WindowRetryIsExact(rule: Rule, bucket: Option<Bucket>, d: Demand, now: int, t: int)
    requires WellFormed(rule) && rule.kind.SlidingWindow? && SaneRow(bucket, now)
    requires Excess(rule, bucket, d, now) > 0.0 && now <= t
    ensures Drains(rule, d) ==>
              (Excess(rule, bucket, d, t) <= 0.0 <==>
               t >= RetryTime(rule, bucket, d.outstanding, Required(rule, d), now))
    ensures !Drains(rule, d) ==>
              && RetryTime(rule, bucket, d.outstanding, Required(rule, d), now) == now + 60000
              && Excess(rule, bucket, d, t) > 0.0
  {
    hide Recent, Required, Exempt;
    var span := rule.kind.windowSeconds * 1000;
    var events := if bucket.Some? then bucket.value.events else [];
    var k := RecentIsSuffix(events, now - span);
    var m := RecentIsSuffix(events, t - span);
    var expire := |events| - k + d.outstanding + Required(rule, d) - rule.capacity;
    assert Excess(rule, bucket, d, now) == expire as real;
    assert Excess(rule, bucket, d, t) == (expire + k - m) as real;
    if Drains(rule, d) {
      assert events[k..][expire - 1] == events[k + expire - 1];
    }
  }

  /** Without other traffic, a rule that refuses overshoots at every moment before the time it
      names and at none after it, unless outstanding reservations alone exceed it. */
  lemma OvershootIsExact(rule: Rule, bucket: Option<Bucket>, d: Demand, now: int, t: int)
    requires WellFormed(rule) && SaneRow(bucket, now) && now <= t
    requires Refuses(true, rule, bucket, d, now)
    ensures var retryAt := RetryTime(rule, bucket, d.outstanding, Required(rule, d), now);
            && retryAt > now
            && (Drains(rule, d) ==> (Excess(rule, bucket, d, t) <= 0.0 <==> t >= retryAt))
            && (!Drains(rule, d) ==> retryAt == now + 60000 && Excess(rule, bucket, d, t) > 0.0)
  {
    if rule.kind.TokenBucket? {
      TokenRetryIsExact(rule, bucket, d, now, t);
      TokenRetryIsExact(rule, bucket, d, now, now);
    } else {
      WindowRetryIsExact(rule, bucket, d, now, t);
      WindowRetryIsExact(rule, bucket, d, now, now);
    }
  }

  /** A window overshoots by a whole number. */
  lemma WholeExcess(rule: Rule, bucket: Option<Bucket>, d: Demand, t: int)
    requires rule.kind.SlidingWindow?
    ensures var whole := |LiveEvents(bucket, rule.kind.windowSeconds, t)| + d.outstanding
        + Required(rule, d) - rule.capacity;
            && Excess(rule, bucket, d, t) == whole as real
            && (Excess(rule, bucket, d, t) <= SLACK <==> whole <= 0)
  {
    var whole := |LiveEvents(bucket, rule.kind.windowSeconds, t)| + d.outstanding + Required(rule, d) - rule.capacity;
    assert Excess(rule, bucket, d, t) == whole as real;
  }

  // ---------------------------------------------------------------- the grid of debts

  /** A whole number of hundred-thousandths: what one millisecond drains at one percent. */
  predicate OnGrid(x: real) {
    (x * 100000.0).Floor as real == x * 100000.0
  }

  predicate GridRow(bucket: Option<Bucket>) {
    bucket.Some? ==> OnGrid(bucket.value.debt)
  }

  lemma Steps(x: real) returns (n: int)
    requires OnGrid(x)
    ensures x * 100000.0 == n as real
  {
    n := (x * 100000.0).Floor;
  }

  lemma FromSteps(x: real, n: int)
    requires x * 100000.0 == n as real
    ensures OnGrid(x)
  {
  }

  lemma GridAdds(x: real, y: real)
    requires OnGrid(x) && OnGrid(y)
    ensures OnGrid(x + y) && OnGrid(x - y)
  {
    hide OnGrid;
    var m := Steps(x);
    var n := Steps(y);
    FromSteps(x + y, m + n);
    FromSteps(x - y, m - n);
  }

  lemma WholeIsOnGrid(n: int)
    ensures OnGrid(n as real)
  {
    FromSteps(n as real, n * 100000);
  }

  /** Official refills are whole. */
  lemma RefillIsWhole(id: RuleId, percent: int) returns (hundredths: int)
    requires RuleOf(id, percent).kind.TokenBucket?
    ensures RuleOf(id, percent).kind.refillPerSecond == hundredths as real / 100.0
  {
    var official := if id.PerOperation? then OfficialBucket(id.operation).1 else 10.0;
    hundredths := official.Floor * percent;
    assert official.Floor as real == official;
  }

  lemma RefillIsOnGrid(id: RuleId, percent: int, from: int, to: int) returns (drained: real)
    requires RuleOf(id, percent).kind.TokenBucket?
    ensures drained == Seconds(from, to) * RuleOf(id, percent).kind.refillPerSecond && OnGrid(drained)
  {
    hide RuleOf, OnGrid;
    var hundredths := RefillIsWhole(id, percent);
    var ms := if to <= from then 0 else to - from;
    PerMillisecond(ms, hundredths);
    drained := (ms * hundredths) as real / 100000.0;
    assert Seconds(from, to) * RuleOf(id, percent).kind.refillPerSecond ==
        ms as real / 1000.0 * (hundredths as real / 100.0);
    FromSteps(drained, ms * hundredths);
  }

  lemma PerMillisecond(ms: int, hundredths: int)
    ensures ms as real / 1000.0 * (hundredths as real / 100.0) == (ms * hundredths) as real / 100000.0
  {
    assert ms as real * hundredths as real == (ms * hundredths) as real;
  }

  lemma DrainedDebt(bucket: Bucket, refill: real, t: int, drained: real)
    requires OnGrid(bucket.debt) && OnGrid(drained) && drained == Seconds(bucket.updatedAt, t) * refill
    ensures OnGrid(LiveDebt(Some(bucket), refill, t))
  {
    hide OnGrid;
    WholeIsOnGrid(0);
    GridAdds(bucket.debt, drained);
    var rest := bucket.debt - drained;
    assert LiveDebt(Some(bucket), refill, t) == if rest < 0.0 then 0 as real else rest;
  }

  lemma DebtIsOnGrid(id: RuleId, percent: int, bucket: Option<Bucket>, t: int)
    requires RuleOf(id, percent).kind.TokenBucket? && GridRow(bucket)
    ensures OnGrid(LiveDebt(bucket, RuleOf(id, percent).kind.refillPerSecond, t))
  {
    hide RuleOf;
    if bucket.Some? {
      var drained := RefillIsOnGrid(id, percent, bucket.value.updatedAt, t);
      DrainedDebt(bucket.value, RuleOf(id, percent).kind.refillPerSecond, t, drained);
      assert bucket == Some(bucket.value);
    }
  }

  lemma ExcessIsOnGrid(id: RuleId, percent: int, bucket: Option<Bucket>, d: Demand, t: int)
    requires GridRow(bucket)
    ensures OnGrid(Excess(RuleOf(id, percent), bucket, d, t))
  {
    hide RuleOf, OnGrid;
    var rule := RuleOf(id, percent);
    var spare := Required(rule, d) - rule.capacity;
    WholeIsOnGrid(spare);
    match rule.kind
    case TokenBucket(refill) =>
      DebtIsOnGrid(id, percent, bucket, t);
      GridAdds(LiveDebt(bucket, refill, t), spare as real);
      assert Excess(rule, bucket, d, t) == LiveDebt(bucket, refill, t) + spare as real;
    case SlidingWindow(window) =>
      var held := |LiveEvents(bucket, window, t)| + d.outstanding;
      WholeIsOnGrid(held);
      GridAdds(held as real, spare as real);
      assert Excess(rule, bucket, d, t) == held as real + spare as real;
  }

  /** What the tolerance is for: on the grid the comparison finds exactly the true overshoots, even
      when what it compares is off by less than the tolerance. */
  lemma ToleranceDecidesExactly(id: RuleId, percent: int, bucket: Option<Bucket>, d: Demand, t: int, error: real)
    requires GridRow(bucket) && -SLACK < error < SLACK
    ensures var rule := RuleOf(id, percent);
            Used(rule, bucket, d, t) + error + Required(rule, d) as real > rule.capacity as real + SLACK
            <==> Excess(rule, bucket, d, t) > 0.0
  {
    hide RuleOf;
    var excess := Excess(RuleOf(id, percent), bucket, d, t);
    ExcessIsOnGrid(id, percent, bucket, d, t);
    if excess > 0.0 {
      assert (excess * 100000.0).Floor >= 1;
    }
  }

  /** Without other traffic, a rule that refuses goes on to refuse at every millisecond before the
      time it names and at none from then on, unless outstanding reservations alone exceed it; then
      it is polled after one minute and stays shut. */
  lemma RetryTimeIsExact(id: RuleId, percent: int, bucket: Option<Bucket>, d: Demand, now: int, t: int)
    requires ValidPercent(percent) && SaneRow(bucket, now) && GridRow(bucket) && now <= t
    requires Refuses(true, RuleOf(id, percent), bucket, d, now)
    ensures WellFormed(RuleOf(id, percent))
    ensures var rule := RuleOf(id, percent);
            var retryAt := RetryTime(rule, bucket, d.outstanding, Required(rule, d), now);
            && retryAt > now
            && (Drains(rule, d) ==> (Refuses(true, rule, bucket, d, t) <==> t < retryAt))
            && (!Drains(rule, d) ==> retryAt == now + 60000 && Refuses(true, rule, bucket, d, t))
  {
    hide RuleOf, OnGrid;
    RulesScale(id, percent, percent);
    OvershootIsExact(RuleOf(id, percent), bucket, d, now, t);
    ToleranceDecidesExactly(id, percent, bucket, d, t, 0.0);
  }

  /** A rule that admits goes on to admit while nothing else happens. */
  lemma AdmissionLasts(id: RuleId, percent: int, bucket: Option<Bucket>, d: Demand, now: int, t: int)
    requires ValidPercent(percent) && SaneRow(bucket, now) && now <= t
    requires !Refuses(true, RuleOf(id, percent), bucket, d, now)
    ensures !Refuses(true, RuleOf(id, percent), bucket, d, t)
  {
    hide RuleOf;
    RulesScale(id, percent, percent);
    ExcessShrinks(RuleOf(id, percent), bucket, d, now, t);
  }

  // ---------------------------------------------------------------- all rules together

  /** The rules are the shipped ones at one percentage, and their rows are as the code leaves them. */
  predicate RowsSane(l: Ledger, rules: seq<Rule>, percent: int, region: Region, now: int) {
    && ValidPercent(percent)
    && forall i :: 0 <= i < |rules| ==>
         && rules[i] == RuleOf(rules[i].id, percent)
         && SaneRow(BucketAt(l, KeyFor(rules[i], region)), now) && GridRow(BucketAt(l, KeyFor(rules[i], region)))
  }

  predicate RuleRefuses(l: Ledger, rule: Rule, region: Region, d: Demand, now: int) {
    Refuses(l.enabled, rule, BucketAt(l, KeyFor(rule, region)), d, now)
  }

  /** The verdict is Fine iff nothing refuses; else it carries the latest of the times. */
  lemma {:induction false} WorstIsLatest(l: Ledger, rules: seq<Rule>, region: Region, d: Demand, now: int)
    requires forall i :: 0 <= i < |rules| ==> WellFormed(rules[i])
    ensures var worst := Worst(l, rules, region, d, now);
            && (worst.Fine? <==> forall i :: 0 <= i < |rules| ==> !RuleRefuses(l, rules[i], region, d, now))
            && (worst.Refused? ==>
                  exists i :: && 0 <= i < |rules| && rules[i].id == worst.rule
                      && RuleRefuses(l, rules[i], region, d, now)
                              && worst.retryAt == RetryTime(rules[i], BucketAt(l, KeyFor(rules[i], region)),
                                                            d.outstanding, Required(rules[i], d), now))
            && (worst.Refused? ==>
                  forall i :: 0 <= i < |rules| && RuleRefuses(l, rules[i], region, d, now) ==>
                    RetryTime(rules[i], BucketAt(l, KeyFor(rules[i], region)),
                              d.outstanding, Required(rules[i], d), now) <= worst.retryAt)
  {
    hide Refuses, RetryTime, Required, KeyFor, BucketAt, WellFormed;
    if rules != [] {
      var n := |rules| - 1;
      WorstIsLatest(l, rules[..n], region, d, now);
      var earlier := Worst(l, rules[..n], region, d, now);
      if earlier.Refused? {
        var i :| && 0 <= i < n && rules[..n][i].id == earlier.rule && RuleRefuses(l, rules[..n][i], region, d, now)
                 && earlier.retryAt == RetryTime(rules[..n][i], BucketAt(l, KeyFor(rules[..n][i], region)),
                                                 d.outstanding, Required(rules[..n][i], d), now);
        assert rules[i] == rules[..n][i];
      }
      forall i | 0 <= i < n ensures rules[i] == rules[..n][i] {
      }
      if RuleRefuses(l, rules[n], region, d, now) {
        assert rules[n].id == rules[n].id;
      }
    }
  }

  /** The rules are all well formed. */
  lemma RowsAreWellFormed(l: Ledger, rules: seq<Rule>, percent: int, region: Region, now: int)
    requires RowsSane(l, rules, percent, region, now)
    ensures forall i :: 0 <= i < |rules| ==> WellFormed(rules[i])
  {
    hide RuleOf;
    forall i | 0 <= i < |rules| ensures WellFormed(rules[i]) {
      RulesScale(rules[i].id, percent, percent);
    }
  }

  /** Left alone, each refusing rule that time alone can open refuses exactly until its own time,
      whatever holds the others, and the write passes exactly from the reported time on, provided
      no refusing rule is held by reservations. */
  lemma {:induction false} ReportedTimeAdmits(l: Ledger, rules: seq<Rule>, percent: int, region: Region, d: Demand,
      now: int, t: int)
    requires l.enabled && RowsSane(l, rules, percent, region, now) && now <= t
    ensures forall i :: 0 <= i < |rules| ==> WellFormed(rules[i])
    ensures forall i :: 0 <= i < |rules| && RuleRefuses(l, rules[i], region, d, now) && Drains(rules[i], d) ==>
              (RuleRefuses(l, rules[i], region, d, t) <==>
               t < RetryTime(rules[i], BucketAt(l, KeyFor(rules[i], region)), d.outstanding, Required(rules[i], d),
                   now))
    ensures var worst := Worst(l, rules, region, d, now);
            worst.Refused? ==>
              && worst.retryAt > now
              && (Worst(l, rules, region, d, t).Fine? <==>
                    && t >= worst.retryAt
                    && forall i :: 0 <= i < |rules| && RuleRefuses(l, rules[i], region, d, now) ==> Drains(rules[i], d))
  {
    hide RuleOf, Refuses, RetryTime, Drains;
    RowsAreWellFormed(l, rules, percent, region, now);
    WorstIsLatest(l, rules, region, d, now);
    WorstIsLatest(l, rules, region, d, t);
    forall i | 0 <= i < |rules|
      ensures RuleRefuses(l, rules[i], region, d, t) <==>
                && RuleRefuses(l, rules[i], region, d, now)
                && (Drains(rules[i], d) ==>
                      t < RetryTime(rules[i], BucketAt(l, KeyFor(rules[i], region)), d.outstanding,
                          Required(rules[i], d), now))
      ensures RuleRefuses(l, rules[i], region, d, now) ==>
                now < RetryTime(rules[i], BucketAt(l, KeyFor(rules[i], region)), d.outstanding, Required(rules[i], d),
                    now)
    {
      var bucket := BucketAt(l, KeyFor(rules[i], region));
      if RuleRefuses(l, rules[i], region, d, now) {
        RetryTimeIsExact(rules[i].id, percent, bucket, d, now, t);
      } else {
        AdmissionLasts(rules[i].id, percent, bucket, d, now, t);
      }
    }
  }
}
