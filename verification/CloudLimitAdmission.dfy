/** Exactly when a write is admitted, said in terms of rows and plans alone, and exactly when a
    pause begins and ends. */
module CloudLimitAdmission {
  import opened Wrappers
  import opened CloudLimitRules
  import opened CloudLimits
  import opened CloudLimitRetry
  import opened CloudLimitRuns

  // ---------------------------------------------------------------- the plan behind a write

  /** The step lies on the write's own plan, not before it, and can still be sent. */
  predicate AheadOf(l: Ledger, step: StepId, s: StepId) {
    && step in l.steps && s in l.steps
    && l.steps[s].attempt == l.steps[step].attempt && l.steps[s].attempt in l.live
    && l.steps[s].sequence >= l.steps[step].sequence
    && l.steps[s].open
  }

  /** What the caller says about the plan agrees with the durable plan. */
  predicate AgreesWithPlan(l: Ledger, w: Write) {
    && AheadOf(l, w.step, w.step) && l.steps[w.step].action == w.action
    && forall i :: 0 <= i < |w.remaining| ==>
         AheadOf(l, w.step, w.remaining[i].0) && l.steps[w.remaining[i].0].action == w.remaining[i].1
  }

  /** The vendor knows every step that lies ahead. */
  predicate PlanIsKnown(l: Ledger, w: Write) {
    forall s :: s in l.steps && AheadOf(l, w.step, s) ==> OperationOf(l.service, l.steps[s].action).Some?
  }

  /** A place kept for a step that was not sent yet. */
  predicate Kept(l: Ledger, s: StepId) {
    s in l.reservations && l.reservations[s] == false && s in l.steps && l.steps[s].attempt in l.live
  }

  /** A later step of the plan that has no place yet and was never sent. */
  predicate NeedsPlace(l: Ledger, step: StepId, s: StepId) {
    && AheadOf(l, step, s) && s != step && s !in l.reservations && !l.steps[s].dispatched
    && l.steps[s].action in {StaticIpAllocate, StaticIpDetach, StaticIpAttach}
  }

  function KeptPlaces(l: Ledger): set<StepId> {
    set s | s in l.reservations && Kept(l, s)
  }

  function NeededPlaces(l: Ledger, step: StepId): set<StepId> {
    set s | s in l.steps && NeedsPlace(l, step, s)
  }

  // ---------------------------------------------------------------- room in one budget

  function EventsSince(events: seq<int>, cut: int): set<int> {
    set i | 0 <= i < |events| && events[i] > cut
  }

  /** How many writes the window has seen and not yet forgotten. */
  function Seen(bucket: Option<Bucket>, cut: int): nat {
    if bucket.None? then 0 else |EventsSince(bucket.value.events, cut)|
  }

  /** A token bucket has room for one write if the debt, less what was refilled since, leaves one. A
      window has room if what it has seen, the write, and, for the static-IP family, all places kept
      and still needed fit. Releases pass the windows, and so does a write whose place is kept and
      whose plan needs no further one. */
  predicate HasRoom(l: Ledger, w: Write, rule: Rule, now: int) {
    var bucket := BucketAt(l, Key(rule.id, if rule.global then None else Some(w.region)));
    match rule.kind
    case TokenBucket(refill) =>
      bucket.None?
      || bucket.value.debt + 1.0 <= rule.capacity as real + (now - bucket.value.updatedAt) as real / 1000.0 * refill
    case SlidingWindow(window) =>
      var seen := Seen(bucket, now - 1000 * window);
      match w.action
      case StaticIpRelease => true
      case StaticIpAllocate => PlacesFit(l, w.step, seen, rule.capacity)
      case StaticIpDetach => PlacesFit(l, w.step, seen, rule.capacity)
      case StaticIpAttach => PlacesFit(l, w.step, seen, rule.capacity)
      case _ => seen + 1 <= rule.capacity
  }

  predicate PlacesFit(l: Ledger, step: StepId, seen: nat, capacity: int) {
    var needed := |NeededPlaces(l, step)|;
    if Kept(l, step) then needed == 0 || seen + |KeptPlaces(l)| + needed <= capacity
    else seen + |KeptPlaces(l)| + 1 + needed <= capacity
  }

  lemma {:induction false} RecentCounts(events: seq<int>, cut: int)
    ensures |Recent(events, cut)| == |EventsSince(events, cut)|
  {
    if events == [] {
      assert EventsSince(events, cut) == {};
    } else {
      var n := |events| - 1;
      RecentCounts(events[..n], cut);
      var earlier := EventsSince(events[..n], cut);
      assert forall i :: 0 <= i < n ==> events[..n][i] == events[i];
      assert EventsSince(events, cut) == earlier + (if events[n] > cut then {n} else {});
    }
  }

  lemma PlacesAreCounted(l: Ledger, step: StepId)
    ensures KeptPlaces(l) == Pending(l)
    ensures NeededPlaces(l, step) == Unreserved(l, step)
    ensures Kept(l, step) <==> step in Pending(l)
  {
    forall s ensures s in NeededPlaces(l, step) <==> s in Unreserved(l, step) {
    }
  }

  lemma PlanIsRead(l: Ledger, w: Write)
    ensures AgreesWithPlan(l, w) <==> PlanMatches(l, w)
    ensures PlanIsKnown(l, w) <==> PlanSupported(l, w)
  {
    forall s ensures AheadOf(l, w.step, s) <==> s in Remaining(l, w.step) {
    }
    if AgreesWithPlan(l, w) {
      forall supplied | supplied in w.remaining
        ensures supplied.0 in Remaining(l, w.step) && l.steps[supplied.0].action == supplied.1
      {
        var i :| 0 <= i < |w.remaining| && w.remaining[i] == supplied;
      }
    }
    if PlanMatches(l, w) {
      forall i | 0 <= i < |w.remaining|
        ensures AheadOf(l, w.step, w.remaining[i].0) && l.steps[w.remaining[i].0].action == w.remaining[i].1
      {
        assert w.remaining[i] in w.remaining;
      }
    }
  }

  lemma TokenRoom(id: RuleId, percent: int, bucket: Option<Bucket>, d: Demand, now: int)
    requires ValidPercent(percent) && SaneRow(bucket, now) && GridRow(bucket)
    requires RuleOf(id, percent).kind.TokenBucket?
    ensures var rule := RuleOf(id, percent);
            !Refuses(true, rule, bucket, d, now) <==>
            bucket.None? || bucket.value.debt + 1.0 <=
            rule.capacity as real + (now - bucket.value.updatedAt) as real / 1000.0 * rule.kind.refillPerSecond
  {
    hide RuleOf, OnGrid;
    RulesScale(id, percent, percent);
    ToleranceDecidesExactly(id, percent, bucket, d, now, 0.0);
  }

  lemma WindowRoom(l: Ledger, w: Write, rule: Rule, now: int)
    requires WellFormed(rule) && rule.kind.SlidingWindow?
    ensures var bucket := BucketAt(l, KeyFor(rule, w.region));
            !Refuses(true, rule, bucket, DemandOf(l, w), now) <==> HasRoom(l, w, rule, now)
  {
    var bucket := BucketAt(l, KeyFor(rule, w.region));
    var cut := now - 1000 * rule.kind.windowSeconds;
    PlacesAreCounted(l, w.step);
    if bucket.Some? {
      RecentCounts(bucket.value.events, cut);
    }
    assert |LiveEvents(bucket, rule.kind.windowSeconds, now)| == Seen(bucket, cut);
    WholeExcess(rule, bucket, DemandOf(l, w), now);
    hide Recent, Pending, Unreserved, KeptPlaces, NeededPlaces, Kept, Seen, LiveEvents;
  }

  lemma RoomIsRefusal(l: Ledger, w: Write, id: RuleId, percent: int, now: int)
    requires ValidPercent(percent)
    requires var bucket := BucketAt(l, KeyFor(RuleOf(id, percent), w.region)); SaneRow(bucket, now) && GridRow(bucket)
    ensures RuleRefuses(l, RuleOf(id, percent), w.region, DemandOf(l, w), now) <==>
            l.enabled && !HasRoom(l, w, RuleOf(id, percent), now)
  {
    hide RuleOf, OnGrid, DemandOf;
    var rule := RuleOf(id, percent);
    RulesScale(id, percent, percent);
    if rule.kind.TokenBucket? {
      TokenRoom(id, percent, BucketAt(l, KeyFor(rule, w.region)), DemandOf(l, w), now);
    } else {
      WindowRoom(l, w, rule, now);
    }
  }

  // ---------------------------------------------------------------- the whole decision

  predicate Known(l: Ledger, w: Write) {
    OperationOf(l.service, w.action).Some?
  }

  predicate BlockedByCleanup(l: Ledger, w: Write) {
    l.service == Lightsail && w.idleRelease
  }

  predicate Paused(l: Ledger, now: int) {
    l.cooldown.Some? && now < l.cooldown.value.until
  }

  /** A static-IP write that is not a release must come from the durable plan. */
  predicate Planned(w: Write) {
    w.action in {StaticIpAllocate, StaticIpDetach, StaticIpAttach}
  }

  /** Nothing stands before the budgets. */
  predicate Unhindered(l: Ledger, w: Write, now: int) {
    && Known(l, w) && !BlockedByCleanup(l, w) && !Paused(l, now)
    && (Planned(w) ==> AgreesWithPlan(l, w) && PlanIsKnown(l, w))
  }

  predicate RoomInAll(l: Ledger, w: Write, now: int)
    requires Known(l, w)
  {
    var rules := RulesForAction(l.service, w.action, Percent(l));
    forall i :: 0 <= i < |rules| ==> HasRoom(l, w, rules[i], now)
  }

  /** A window so small that it could not even hold the rest of the plan when empty. */
  predicate PlanTooLarge(l: Ledger, w: Write)
    requires Known(l, w)
  {
    var rules := RulesForAction(l.service, w.action, Percent(l));
    exists i :: 0 <= i < |rules| && rules[i].kind.SlidingWindow?
      && |NeededPlaces(l, w.step)| + (if Kept(l, w.step) then 0 else 1) > rules[i].capacity
  }

  lemma VerdictIsRoom(l: Ledger, w: Write, now: int)
    requires Sane(l, now) && Gridded(l) && Known(l, w)
    ensures forall i :: 0 <= i < |RulesInForce(l, w.action)| ==> WellFormed(RulesInForce(l, w.action)[i])
    ensures Worst(l, RulesInForce(l, w.action), w.region, DemandOf(l, w), now).Fine? <==>
            (l.enabled ==> RoomInAll(l, w, now))
  {
    hide RuleOf, OnGrid, DemandOf, HasRoom, Worst, RulesForAction, RuleRefuses, Percent, SaneRow;
    var rules := RulesInForce(l, w.action);
    RulesInForceAreSound(l, w.action);
    RowsOfWrite(l, w, now);
    PercentIsValid(l);
    WorstIsLatest(l, rules, w.region, DemandOf(l, w), now);
    forall i | 0 <= i < |rules|
      ensures RuleRefuses(l, rules[i], w.region, DemandOf(l, w), now) <==> l.enabled && !HasRoom(l, w, rules[i], now)
    {
      RoomIsRefusal(l, w, rules[i].id, Percent(l), now);
    }
  }

  lemma TooLowIsTooLarge(l: Ledger, w: Write)
    requires ValidPolicies(l) && Known(l, w)
    ensures var rules := RulesInForce(l, w.action);
            (exists i :: 0 <= i < |rules| && TooLow(l.enabled, rules[i], DemandOf(l, w))) <==>
            l.enabled && Planned(w) && PlanTooLarge(l, w)
  {
    hide RuleOf, RulesForAction, Pending, Unreserved, KeptPlaces, NeededPlaces, Kept, Percent;
    PlacesAreCounted(l, w.step);
    var rules := RulesInForce(l, w.action);
    forall i | 0 <= i < |rules|
      ensures TooLow(l.enabled, rules[i], DemandOf(l, w)) <==>
                l.enabled && Planned(w) && rules[i].kind.SlidingWindow?
                && |NeededPlaces(l, w.step)| + (if Kept(l, w.step) then 0 else 1) > rules[i].capacity
    {
    }
  }

  lemma TooLargeHasNoRoom(l: Ledger, w: Write, now: int)
    requires ValidPolicies(l) && Known(l, w) && Planned(w) && PlanTooLarge(l, w)
    ensures !RoomInAll(l, w, now)
  {
    hide RuleOf, RulesForAction, Percent, Kept, KeptPlaces, NeededPlaces, Seen;
    var rules := RulesForAction(l.service, w.action, Percent(l));
    PercentIsValid(l);
    RulesForActionAreSound(l.service, w.action, Percent(l));
    var i :| 0 <= i < |rules| && rules[i].kind.SlidingWindow?
             && |NeededPlaces(l, w.step)| + (if Kept(l, w.step) then 0 else 1) > rules[i].capacity;
    assert !HasRoom(l, w, rules[i], now);
  }

  /** The decision, whole: what is admitted, and why anything else is not. With the switch off no
      budget ever refuses. */
  lemma AdmissionIsExact(l: Ledger, w: Write, now: int)
    requires Sane(l, now) && Gridded(l)
    ensures var answer := Reserve(l, w, now).1;
            && (answer.Allowed? <==> Unhindered(l, w, now) && (l.enabled ==> RoomInAll(l, w, now)))
            && (answer.Denied? && answer.reason.Budget? <==>
                  Unhindered(l, w, now) && l.enabled && !RoomInAll(l, w, now) && !(Planned(w) && PlanTooLarge(l, w)))
            && (answer == Thrown(LimitTooLow) <==>
                  Unhindered(l, w, now) && l.enabled && Planned(w) && PlanTooLarge(l, w))
            && (answer == Thrown(UnsupportedAction) <==>
                  !Known(l, w) || (!BlockedByCleanup(l, w) && !Paused(l, now) && Planned(w)
                                   && AgreesWithPlan(l, w) && !PlanIsKnown(l, w)))
            && (answer == Thrown(InvalidReservationStep) <==>
                  Known(l, w) && !BlockedByCleanup(l, w) && !Paused(l, now) && Planned(w) && !AgreesWithPlan(l, w))
            && (answer.Denied? && answer.reason == IdleIpCleanup <==> Known(l, w) && BlockedByCleanup(l, w))
            && (answer.Denied? && answer.reason == IdleIpCleanup ==> answer.retryAt == now + 5000)
            && (answer.Denied? && answer.reason == InCooldown <==>
                  Known(l, w) && !BlockedByCleanup(l, w) && Paused(l, now))
            && (answer.Denied? && answer.reason == InCooldown ==> answer.retryAt == l.cooldown.value.until)
  {
    hide RuleOf, OnGrid, HasRoom, Worst, RulesForAction, RulesInForce, RoomInAll, PlanTooLarge, Percent, SaneRow,
      Charged, ReservationsAfter, PlanMatches, PlanSupported, AgreesWithPlan, PlanIsKnown, TooLow, Pending, Unreserved;
    if Known(l, w) {
      PlanIsRead(l, w);
      VerdictIsRoom(l, w, now);
      TooLowIsTooLarge(l, w);
      if Planned(w) && PlanTooLarge(l, w) {
        TooLargeHasNoRoom(l, w, now);
      }
    }
  }

  /** The same in every state the limiter reaches. */
  lemma {:induction false} AdmissionIsExactInRuns(l: Ledger, start: int, run: seq<Timed>, w: Write, now: int)
    requires Untouched(l) && LegalRun(l, run) && InOrder(start, run) && End(start, run) <= now
    ensures var s := After(l, run);
            && ValidPolicies(s)
            && (Reserve(s, w, now).1.Allowed? <==> Unhindered(s, w, now) && (s.enabled ==> RoomInAll(s, w, now)))
  {
    hide Reserve, Apply, Legal, RuleOf, Unhindered, RoomInAll, Lowest;
    RunKeepsSane(l, start, run);
    RunKeepsGrid(l, run);
    AdmissionIsExact(After(l, run), w, now);
  }

  /** A policy change sets one account's share and the common switch, and no row is owed more or less
      for it. The smallest share of all accounts then rules. */
  lemma PolicyTakesEffect(l: Ledger, account: nat, percent: int, switch: Option<bool>, now: int)
    requires Sane(l, now) && Gridded(l) && account < |l.percents| && ValidPercent(percent)
    ensures var after := Apply(l, Policy(account, percent, switch), now);
            && |after.percents| == |l.percents| && after.percents[account] == percent
            && (forall i :: 0 <= i < |l.percents| && i != account ==> after.percents[i] == l.percents[i])
            && after.enabled == (if switch == Some(true) then true else if switch == Some(false) then false
                else l.enabled)
            && after.cooldown == l.cooldown && after.reservations == l.reservations && after.steps == l.steps
            && Percent(after) in after.percents && (forall p :: p in after.percents ==> Percent(after) <= p)
            && (switch == Some(false) ==>
                  forall w: Write :: Reserve(after, w, now).1.Allowed? <==> Unhindered(after, w, now))
  {
    var after := Apply(l, Policy(account, percent, switch), now);
    ApplyKeepsSane(l, Policy(account, percent, switch), now, now);
    EventKeepsGrid(l, Policy(account, percent, switch), now);
    PercentIsValid(after);
    hide Apply, Reserve, Unhindered, RoomInAll, Sane, Gridded;
    if switch == Some(false) {
      forall w: Write ensures Reserve(after, w, now).1.Allowed? <==> Unhindered(after, w, now) {
        AdmissionIsExact(after, w, now);
      }
    }
  }

  // ---------------------------------------------------------------- pauses begin and end

  /** A refusal for a pause names the first moment at which the pause refuses no longer. */
  lemma PauseRefusesExactly(l: Ledger, w: Write, now: int, t: int)
    requires Sane(l, now) && Gridded(l) && now <= t
    requires Reserve(l, w, now).1.Denied? && Reserve(l, w, now).1.reason.InCooldown?
    ensures var named := Reserve(l, w, now).1.retryAt;
            && now < named
            && (Reserve(l, w, t).1 == Denied(InCooldown, named) <==> t < named)
            && (t >= named ==> !(Reserve(l, w, t).1.Denied? && Reserve(l, w, t).1.reason.InCooldown?))
  {
  }

  lemma {:induction false} PauseIsNotMoved(l: Ledger, run: seq<Timed>, i: nat, j: nat)
    requires LegalRun(l, run) && i <= j <= |run| && LegalRun(l, run[..i]) && LegalRun(l, run[..j])
    requires forall k :: i <= k < j ==> !run[k].event.Throttle?
    ensures After(l, run[..j]).cooldown == After(l, run[..i]).cooldown
    decreases j
  {
    hide Apply, Legal;
    if i < j {
      PrefixIsLegal(l, run, j - 1);
      PauseIsNotMoved(l, run, i, j - 1);
      assert run[..j][..j - 1] == run[..j - 1];
      CooldownKept(After(l, run[..j - 1]), run[j - 1].event, run[j - 1].at);
    }
  }

  lemma CooldownKept(l: Ledger, event: Event, now: int)
    requires ValidPolicies(l) && ValidCooldown(l.cooldown) && Legal(l, event) && !event.Throttle?
    ensures Apply(l, event, now).cooldown == l.cooldown
  {
    hide Worst, Charged, DemandOf, TooLow, PlanMatches, PlanSupported, RulesInForce, ReservationsAfter, Settled;
  }

  lemma {:induction false} PauseBegins(l: Ledger, run: seq<Timed>, i: nat)
    requires LegalRun(l, run) && i < |run| && run[i].event.Throttle?
    ensures LegalRun(l, run[..i + 1]) && After(l, run[..i + 1]).cooldown.Some?
  {
    hide Throttled;
    PrefixIsLegal(l, run, i + 1);
  }

  lemma {:induction false} PauseStands(l: Ledger, run: seq<Timed>, i: nat, j: nat)
    requires LegalRun(l, run) && i < j < |run| && run[i].event.Throttle?
    requires forall k :: i < k < j ==> !run[k].event.Throttle?
    ensures LegalRun(l, run[..i + 1]) && LegalRun(l, run[..j])
    ensures After(l, run[..j]).cooldown.Some? && ValidPolicies(After(l, run[..j]))
    ensures After(l, run[..j]).cooldown == After(l, run[..i + 1]).cooldown
  {
    hide After, Apply, Legal;
    PauseBegins(l, run, i);
    PrefixIsLegal(l, run, j);
    PrefixIsLegal(l, run, j + 1);
    assert run[..j + 1][..j] == run[..j];
    PauseIsNotMoved(l, run, i + 1, j);
  }

  /** Until the next throttle, the pause a throttle recorded refuses writes exactly until its end. */
  lemma {:induction false} PauseEndsExactly(l: Ledger, run: seq<Timed>, i: nat, j: nat)
    requires LegalRun(l, run) && i < j < |run| && run[i].event.Throttle? && run[j].event.Dispatch?
    requires forall k :: i < k < j ==> !run[k].event.Throttle?
    ensures LegalRun(l, run[..i + 1]) && LegalRun(l, run[..j])
    ensures var s, w := After(l, run[..j]), run[j].event.write;
            var until := PauseEnd(After(l, run[..i + 1])).GetOr(0);
            && ValidPolicies(s)
            && (Known(s, w) && !BlockedByCleanup(s, w) ==>
                  (Reserve(s, w, run[j].at).1 == Denied(InCooldown, until) <==> run[j].at < until))
            && (run[j].at >= until ==> !Paused(s, run[j].at))
  {
    hide After, LegalRun, Reserve;
    PauseStands(l, run, i, j);
    var s, w := After(l, run[..j]), run[j].event.write;
    if Known(s, w) && !BlockedByCleanup(s, w) {
      OnlyThePauseRefuses(s, w, run[j].at);
    }
  }

  lemma OnlyThePauseRefuses(l: Ledger, w: Write, now: int)
    requires ValidPolicies(l) && l.cooldown.Some? && Known(l, w) && !BlockedByCleanup(l, w)
    ensures Reserve(l, w, now).1 == Denied(InCooldown, l.cooldown.value.until) <==> now < l.cooldown.value.until
  {
    hide Worst, Charged, DemandOf, TooLow, PlanMatches, PlanSupported, RulesInForce, ReservationsAfter;
  }

  // ---------------------------------------------------------------- how long a pause is

  /** Throttles in a row with less than an hour between them, up to the `n`-th one. */
  function Burst(times: seq<int>, n: nat): nat
    requires n <= |times|
  {
    if n == 0 then 0
    else if n == 1 || times[n - 1] - times[n - 2] >= 3600000 then 1
    else Burst(times, n - 1) + 1
  }

  /** The end the `i`-th throttle asks for: its place in the burst decides, or the vendor's hint if
      that is longer, at most a day. */
  function AskedEnd(times: seq<int>, hints: seq<Option<int>>, i: nat): int
    requires i < |times| && i < |hints|
  {
    var place := Burst(times, i + 1);
    var pause := 1000 * PAUSES_IN_SECONDS[if 1 <= place <= 7 then place - 1 else 6];
    var hint := if hints[i].None? then 0 else if hints[i].value > 86400000 then 86400000 else hints[i].value;
    times[i] + if hint > pause then hint else pause
  }

  /** The recorded pause ends at the latest end any throttle asked for, and not later. */
  lemma {:induction false} PauseIsTheLatestAsked(times: seq<int>, hints: seq<Option<int>>, n: nat)
    requires 0 < n <= |times| && n <= |hints| && forall i :: 0 <= i < n ==> times[i] >= 0
    ensures Streak(times, hints, n).Some?
    ensures var c := Streak(times, hints, n).value;
            && c.updatedAt == times[n - 1]
            && c.throttles == (if Burst(times, n) > 7 then 7 else Burst(times, n))
            && (forall i :: 0 <= i < n ==> AskedEnd(times, hints, i) <= c.until)
            && (exists i :: 0 <= i < n && c.until == AskedEnd(times, hints, i))
  {
    if n > 1 {
      PauseIsTheLatestAsked(times, hints, n - 1);
    }
    OneMoreThrottle(times, hints, n);
    assert AskedEnd(times, hints, n - 1) <= Streak(times, hints, n).value.until;
  }

  lemma OneMoreThrottle(times: seq<int>, hints: seq<Option<int>>, n: nat)
    requires 0 < n <= |times| && n <= |hints| && times[n - 1] >= 0
    requires n > 1 ==>
               var p := Streak(times, hints, n - 1);
               p.Some? && p.value.updatedAt == times[n - 2]
               && p.value.throttles == (if Burst(times, n - 1) > 7 then 7 else Burst(times, n - 1))
    ensures var c := Streak(times, hints, n).value; var asked := AskedEnd(times, hints, n - 1);
            && c.updatedAt == times[n - 1]
            && c.throttles == (if Burst(times, n) > 7 then 7 else Burst(times, n))
            && (n == 1 ==> c.until == asked)
            && (n > 1 ==> var before := Streak(times, hints, n - 1).value.until;
                          c.until == if before > asked then before else asked)
  {
  }
}
