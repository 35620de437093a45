/** Sliding windows and the reservations that share them. */
module CloudLimitWindows {
  import opened Wrappers
  import opened CloudLimitRules
  import opened CloudLimits
  import opened CloudLimitRetry
  import opened CloudLimitRuns

  /** One admitted write as history remembers it. */
  datatype Entry = Entry(at: int, release: bool)

  function Times(entries: seq<Entry>): seq<int> {
    if entries == [] then [] else Times(entries[..|entries| - 1]) + [entries[|entries| - 1].at]
  }

  /** Admitted writes later than `cut`, static-IP releases not counted. */
  function Spent(entries: seq<Entry>, cut: int): nat {
    if entries == [] then 0
    else
      var last := entries[|entries| - 1];
      Spent(entries[..|entries| - 1], cut) + if last.at > cut && !last.release then 1 else 0
  }

  /** The writes of a run that were charged to a row. */
  function History(l: Ledger, run: seq<Timed>, key: Key): seq<Entry>
    requires LegalRun(l, run)
  {
    if run == [] then []
    else
      var n := |run| - 1;
      var event := run[n].event;
      History(l, run[..n], key)
      + if Hits(After(l, run[..n]), event, run[n].at, key)
        then [Entry(run[n].at, event.write.action.StaticIpRelease?)] else []
  }

  predicate IsWindow(id: RuleId) { RuleOf(id, 100).kind.SlidingWindow? }

  predicate IsStaticIpWindow(id: RuleId) { id.StaticIpHour? || id.StaticIpDay? }

  function Span(id: RuleId): int
    requires IsWindow(id)
  {
    RuleOf(id, 100).kind.windowSeconds * 1000
  }

  /** Live unconsumed reservations count against the static-IP windows only. */
  function Outstanding(l: Ledger, id: RuleId): nat {
    if IsStaticIpWindow(id) then |Pending(l)| else 0
  }

  // ---------------------------------------------------------------- the row against history

  /** The row keeps exactly the history that was still in the window when it was written. */
  predicate Tracks(bucket: Option<Bucket>, entries: seq<Entry>, span: int) {
    match bucket
    case None => entries == []
    case Some(row) => row.events == Recent(Times(entries), row.updatedAt - span)
  }

  lemma {:induction false} SpentWithinRecent(entries: seq<Entry>, cut: int)
    ensures Spent(entries, cut) <= |Recent(Times(entries), cut)|
  {
    if entries != [] {
      var n := |entries| - 1;
      SpentWithinRecent(entries[..n], cut);
      assert Times(entries)[..n] == Times(entries[..n]) by { TimesLength(entries[..n]); }
      TimesLength(entries);
    }
  }

  lemma {:induction false} TimesLength(entries: seq<Entry>)
    ensures |Times(entries)| == |entries|
  {
    if entries != [] {
      TimesLength(entries[..|entries| - 1]);
    }
  }

  lemma {:induction false} SpentShrinks(entries: seq<Entry>, cut: int, later: int)
    requires cut <= later
    ensures Spent(entries, later) <= Spent(entries, cut)
  {
    if entries != [] {
      SpentShrinks(entries[..|entries| - 1], cut, later);
    }
  }

  lemma RowKeepsRecent(row: Bucket, times: seq<int>, span: int, now: int)
    requires row.events == Recent(times, row.updatedAt - span) && row.updatedAt <= now
    ensures Recent(row.events, now - span) == Recent(times, now - span)
  {
    var cut := row.updatedAt - span;
    RecentTwice(times, cut, now - span);
  }

  lemma {:induction false} LiveEventsAreHistory(bucket: Option<Bucket>, entries: seq<Entry>, windowSeconds: int,
      now: int)
    requires Tracks(bucket, entries, windowSeconds * 1000)
    requires bucket.Some? ==> bucket.value.updatedAt <= now
    ensures LiveEvents(bucket, windowSeconds, now) == Recent(Times(entries), now - windowSeconds * 1000)
  {
    if bucket.Some? {
      hide Times, Recent;
      RowKeepsRecent(bucket.value, Times(entries), windowSeconds * 1000, now);
    }
  }

  /** Charging a row appends the write to its history. */
  lemma ChargeTracks(rule: Rule, bucket: Option<Bucket>, entries: seq<Entry>, now: int, release: bool)
    requires rule.kind.SlidingWindow? && rule.kind.windowSeconds > 0 && SaneRow(bucket, now)
    requires Tracks(bucket, entries, rule.kind.windowSeconds * 1000)
    ensures Tracks(Some(Charge(rule, bucket, now)), entries + [Entry(now, release)], rule.kind.windowSeconds * 1000)
  {
    var longer := entries + [Entry(now, release)];
    LiveEventsAreHistory(bucket, entries, rule.kind.windowSeconds, now);
    assert longer[..|longer| - 1] == entries;
    assert Times(longer) == Times(entries) + [now];
    assert Times(longer)[..|Times(longer)| - 1] == Times(entries);
  }

  // ---------------------------------------------------------------- reservations over a run

  /** A reservation belongs to a known step and is consumed only by its dispatch. */
  predicate ReservationsSound(l: Ledger) {
    forall s :: s in l.reservations ==> s in l.steps && (l.reservations[s] ==> l.steps[s].dispatched)
  }

  lemma ApplyKeepsReservationsSound(l: Ledger, event: Event, now: int)
    requires Sane(l, now) && Legal(l, event) && ReservationsSound(l)
    ensures ReservationsSound(Apply(l, event, now))
  {
    hide RuleOf, Worst, Charged, Lowest, SaneRow, TooLow, PlanMatches, PlanSupported, RulesInForce;
  }

  /** Outside a static-IP admission the outstanding reservations never grow. */
  lemma PendingOtherwiseShrinks(l: Ledger, event: Event, now: int)
    requires Sane(l, now) && Legal(l, event) && ReservationsSound(l)
    requires event.Dispatch? && Reserve(l, event.write, now).1.Allowed? ==> !IsStaticIp(event.write.action)
    ensures Pending(Apply(l, event, now)) <= Pending(l)
  {
    hide RuleOf, Worst, Charged, Lowest;
  }

  /** What an admission does to reservations and plan. */
  lemma AdmissionEffect(l: Ledger, w: Write, now: int)
    requires Sane(l, now) && Reserve(l, w, now).1.Allowed?
    ensures var l' := Apply(l, Dispatch(w), now);
            && l'.reservations == ReservationsAfter(l.reservations, w.step, DemandOf(l, w))
            && l'.live == l.live && l'.steps == MarkDispatched(l, w.step).steps
            && l'.enabled == l.enabled && l'.percents == l.percents && l'.service == l.service
  {
    hide RuleOf, Worst, Charged, Lowest, DemandOf, ReservationsAfter, TooLow, PlanMatches, PlanSupported, RulesInForce,
      SaneRow;
  }

  lemma PendingMember(l: Ledger, l': Ledger, step: StepId, d: Demand, s: StepId)
    requires l'.reservations == ReservationsAfter(l.reservations, step, d)
    requires l'.live == l.live && l'.steps == MarkDispatched(l, step).steps
    requires d.owns ==> step in Pending(l)
    requires s in d.claims ==> s in Unreserved(l, step)
    ensures s in Pending(l') <==> (s in Pending(l) && !(d.owns && s == step)) || s in d.claims
    ensures s in d.claims ==> s !in Pending(l)
  {
  }

  lemma PendingTrade(l: Ledger, l': Ledger, step: StepId, d: Demand)
    requires l'.reservations == ReservationsAfter(l.reservations, step, d)
    requires l'.live == l.live && l'.steps == MarkDispatched(l, step).steps
    requires d.owns ==> step in Pending(l)
    requires d.claims <= Unreserved(l, step)
    ensures |Pending(l')| == |Pending(l)| + |d.claims| - if d.owns then 1 else 0
  {
    hide Pending, Unreserved, MarkDispatched, ReservationsAfter;
    var spent := if d.owns then {step} else {};
    forall s ensures s in Pending(l') <==> s in (Pending(l) - spent) + d.claims
             ensures s in d.claims ==> s !in Pending(l) {
      PendingMember(l, l', step, d, s);
    }
    assert Pending(l') == (Pending(l) - spent) + d.claims;
    assert |Pending(l) - spent| == |Pending(l)| - |spent|;
  }

  /** A static-IP admission trades its own reservation for the ones it newly makes. */
  lemma PendingAfterStaticIp(l: Ledger, w: Write, now: int)
    requires Sane(l, now) && IsStaticIp(w.action) && Reserve(l, w, now).1.Allowed?
    ensures var d := DemandOf(l, w);
            |Pending(Apply(l, Dispatch(w), now))| == |Pending(l)| + |d.claims| - if d.owns then 1 else 0
  {
    AdmissionEffect(l, w, now);
    hide RuleOf, Reserve, Lowest, Apply, Sane;
    PendingTrade(l, Apply(l, Dispatch(w), now), w.step, DemandOf(l, w));
  }

  // ---------------------------------------------------------------- conservation

  /** With limits on, percentages are only raised and the switch stays on. */
  predicate Steady(l: Ledger, event: Event)
    requires Legal(l, event)
  {
    event.Policy? ==>
      && Percent(l) <= Percent(l.(percents := l.percents[event.account := event.percent]))
      && event.switch != Some(false)
  }

  predicate SteadyRun(l: Ledger, run: seq<Timed>)
    requires LegalRun(l, run)
  {
    run != [] ==> SteadyRun(l, run[..|run| - 1]) && Steady(After(l, run[..|run| - 1]), run[|run| - 1].event)
  }

  /** Writes in the window, releases aside, plus outstanding reservations fit the capacity. */
  predicate Conserved(l: Ledger, entries: seq<Entry>, id: RuleId, t: int)
    requires IsWindow(id)
  {
    Spent(entries, t - Span(id)) + Outstanding(l, id) <= RuleOf(id, Percent(l)).capacity
  }

  lemma WindowFacts(l: Ledger, id: RuleId)
    requires ValidPolicies(l) && IsWindow(id)
    ensures var rule := RuleOf(id, Percent(l));
            && rule.kind.SlidingWindow? && rule.kind.windowSeconds > 0 && Span(id) == rule.kind.windowSeconds * 1000
            && rule.capacity >= 1 && rule.id == id
  {
    PercentIsValid(l);
    RulesScale(id, Percent(l), 100);
  }

  lemma OneMoreSpent(entries: seq<Entry>, entry: Entry, cut: int)
    ensures Spent(entries + [entry], cut) <= Spent(entries, cut) + if entry.release then 0 else 1
  {
    assert (entries + [entry])[..|entries|] == entries;
  }

  /** A window that does not refuse has room for what the write asks, unless it is exempt. */
  lemma RoomOrExempt(rule: Rule, bucket: Option<Bucket>, d: Demand, now: int)
    requires rule.kind.SlidingWindow? && !Refuses(true, rule, bucket, d, now)
    ensures Exempt(rule, d)
            || |LiveEvents(bucket, rule.kind.windowSeconds, now)| + d.outstanding + Required(rule, d) <= rule.capacity
  {
    hide LiveEvents;
    WholeExcess(rule, bucket, d, now);
  }

  /** The arithmetic of one admission against one window, whatever the rest of the state. */
  lemma {:induction false} WindowAdmits(
    rule: Rule, bucket: Option<Bucket>, d: Demand, entries: seq<Entry>, now: int, release: bool)
    requires rule.kind.SlidingWindow? && SaneRow(bucket, now) && Tracks(bucket, entries, rule.kind.windowSeconds * 1000)
    requires !Refuses(true, rule, bucket, d, now) && (release <==> d.release)
    requires d.release ==> d.claims == {} && d.dynamic
    requires d.owns ==> d.dynamic && d.outstanding >= 1
    requires !d.dynamic ==> d.claims == {}
    requires Spent(entries, now - rule.kind.windowSeconds * 1000) + d.outstanding <= rule.capacity
    ensures Spent(entries + [Entry(now, release)], now - rule.kind.windowSeconds * 1000)
            + d.outstanding + |d.claims| - (if d.owns then 1 else 0) <= rule.capacity
  {
    hide Spent, LiveEvents, Refuses, Tracks, Recent, Times;
    var cut := now - rule.kind.windowSeconds * 1000;
    LiveEventsAreHistory(bucket, entries, rule.kind.windowSeconds, now);
    SpentWithinRecent(entries, cut);
    OneMoreSpent(entries, Entry(now, release), cut);
    RoomOrExempt(rule, bucket, d, now);
  }

  lemma DemandShape(l: Ledger, w: Write)
    ensures var d := DemandOf(l, w);
            && (d.release <==> w.action.StaticIpRelease?) && (d.dynamic <==> IsStaticIp(w.action))
            && (d.release ==> d.claims == {} && d.dynamic) && (!d.dynamic ==> d.claims == {} && d.outstanding == 0)
            && (d.dynamic ==> d.outstanding == |Pending(l)|)
            && (d.owns ==> d.dynamic && d.outstanding >= 1)
  {
    if DemandOf(l, w).owns {
      assert {w.step} <= Pending(l);
      SubsetSize({w.step}, Pending(l));
    }
  }

  lemma {:induction false} SubsetSize<T>(a: set<T>, b: set<T>)
    requires a <= b
    ensures |a| <= |b|
  {
    assert b == a + (b - a);
  }

  /** An admitted write passed every one of its rules. */
  lemma AllowedPasses(l: Ledger, w: Write, now: int, i: nat)
    requires Sane(l, now) && Reserve(l, w, now).1.Allowed? && i < |RulesInForce(l, w.action)|
    ensures !RuleRefuses(l, RulesInForce(l, w.action)[i], w.region, DemandOf(l, w), now)
  {
    hide RuleOf, Lowest, RulesInForce, Percent, DemandOf, Charged;
    WorstIsLatest(l, RulesInForce(l, w.action), w.region, DemandOf(l, w), now);
  }

  /** The static-IP windows are charged by exactly the static-IP writes, in any region. */
  lemma StaticIpHits(l: Ledger, w: Write, now: int, key: Key)
    requires Sane(l, now) && Reserve(l, w, now).1.Allowed? && IsWindow(key.rule)
    ensures Hits(l, Dispatch(w), now, key) ==> (IsStaticIp(w.action) <==> IsStaticIpWindow(key.rule))
    ensures IsStaticIp(w.action) && IsStaticIpWindow(key.rule) && key.region == None ==> Hits(l, Dispatch(w), now, key)
  {
    PercentIsValid(l);
    RulesForActionAreSound(l.service, w.action, Percent(l));
    RulesScale(key.rule, Percent(l), 100);
    var rules := RulesInForce(l, w.action);
    if IsStaticIp(w.action) && IsStaticIpWindow(key.rule) && key.region == None {
      var i := if key.rule.StaticIpHour? then 1 else 2;
      assert KeyFor(rules[i], w.region) == key;
    }
  }

  predicate Tracked(l: Ledger, entries: seq<Entry>, key: Key)
    requires IsWindow(key.rule)
  {
    Tracks(BucketAt(l, key), entries, Span(key.rule))
  }

  /** The invariant that conservation needs: rows follow history, reservations are sound. */
  predicate WindowState(l: Ledger, entries: seq<Entry>, key: Key, now: int)
    requires IsWindow(key.rule)
  {
    && Sane(l, now) && l.enabled && ReservationsSound(l)
    && Tracked(l, entries, key) && Conserved(l, entries, key.rule, now)
  }

  function EntryOf(l: Ledger, event: Event, now: int, key: Key): seq<Entry>
    requires ValidPolicies(l)
  {
    if Hits(l, event, now, key) then [Entry(now, event.write.action.StaticIpRelease?)] else []
  }

  lemma HitKeepsWindow(l: Ledger, w: Write, entries: seq<Entry>, now: int, key: Key)
    requires IsWindow(key.rule) && WindowState(l, entries, key, now) && Hits(l, Dispatch(w), now, key)
    ensures var l' := Apply(l, Dispatch(w), now);
            var longer := entries + [Entry(now, w.action.StaticIpRelease?)];
            Tracked(l', longer, key) && Conserved(l', longer, key.rule, now)
  {
    hide RuleOf, Worst, Lowest, RulesInForce, DemandOf, Charged, Pending, TooLow, PlanMatches, PlanSupported,
      ReservationsAfter, Refuses, Charge;
    hide Spent, SaneRow, Tracks;
    var rules := RulesInForce(l, w.action);
    var d := DemandOf(l, w);
    var l' := Apply(l, Dispatch(w), now);
    RulesInForceAreSound(l, w.action);
    var i :| 0 <= i < |rules| && KeyFor(rules[i], w.region) == key;
    assert rules[i] == RuleOf(key.rule, Percent(l));
    WindowFacts(l, key.rule);
    AllowedPasses(l, w, now, i);
    DemandShape(l, w);
    ChargedRow(l, rules, w.region, now, key);
    AdmissionEffect(l, w, now);
    StaticIpHits(l, w, now, key);
    ChargeTracks(rules[i], BucketAt(l, key), entries, now, d.release);
    if d.dynamic {
      PendingAfterStaticIp(l, w, now);
    }
    RowAt(l, key, now);
    WindowAdmits(rules[i], BucketAt(l, key), d, entries, now, d.release);
  }

  /** An event that does not charge the row leaves it alone and does not add reservations. */
  lemma MissKeepsWindow(l: Ledger, event: Event, entries: seq<Entry>, now: int, key: Key)
    requires IsWindow(key.rule) && WindowState(l, entries, key, now) && Legal(l, event) && Steady(l, event)
    requires IsStaticIpWindow(key.rule) ==> key.region == None
    requires !Hits(l, event, now, key)
    ensures var l' := Apply(l, event, now);
            BucketAt(l', key) == BucketAt(l, key) && Outstanding(l', key.rule) <= Outstanding(l, key.rule)
  {
    if event.Dispatch? && Reserve(l, event.write, now).1.Allowed? {
      StaticIpHits(l, event.write, now, key);
      RulesInForceAreSound(l, event.write.action);
      ChargedRow(l, RulesInForce(l, event.write.action), event.write.region, now, key);
      RowsAfterWrite(l, event.write, now, key);
    }
    if event.Policy? {
      WindowFacts(l, key.rule);
      PolicyKeepsWindowRow(l, event, now, key);
    }
    if IsStaticIpWindow(key.rule) {
      PendingOtherwiseShrinks(l, event, now);
      SubsetSize(Pending(Apply(l, event, now)), Pending(l));
    }
  }

  lemma {:induction false} RowsAfterWrite(l: Ledger, w: Write, now: int, key: Key)
    requires Sane(l, now) && Reserve(l, w, now).1.Allowed?
    ensures Apply(l, Dispatch(w), now).buckets == Charged(l, RulesInForce(l, w.action), w.region, now)
  {
    hide RuleOf, Worst, Charged, Lowest, DemandOf, ReservationsAfter, TooLow, PlanMatches, PlanSupported, RulesInForce;
  }

  lemma PolicyKeepsWindowRow(l: Ledger, event: Event, now: int, key: Key)
    requires Sane(l, now) && event.Policy? && Legal(l, event) && RuleOf(key.rule, Percent(l)).kind.SlidingWindow?
    ensures BucketAt(Apply(l, event, now), key) == BucketAt(l, key)
  {
    assert Apply(l, event, now).buckets == Settled(l, now);
  }

  /** A steady event never lowers a window's capacity, and writes do not touch policies. */
  lemma CapacityNeverDrops(l: Ledger, event: Event, now: int, id: RuleId)
    requires Sane(l, now) && l.enabled && Legal(l, event) && Steady(l, event)
    ensures Apply(l, event, now).enabled
    ensures RuleOf(id, Percent(l)).capacity <= RuleOf(id, Percent(Apply(l, event, now))).capacity
  {
    var l' := Apply(l, event, now);
    ApplyKeepsSane(l, event, now, now);
    PercentIsValid(l);
    PercentIsValid(l');
    assert Percent(l) <= Percent(l') by {
      hide RuleOf, Worst, Charged, DemandOf, ReservationsAfter, TooLow, PlanMatches, PlanSupported, RulesInForce,
        Settled;
    }
    RulesScale(id, Percent(l), Percent(l'));
  }

  lemma WindowLater(l: Ledger, entries: seq<Entry>, t: int, now: int, key: Key)
    requires IsWindow(key.rule) && WindowState(l, entries, key, t) && t <= now
    ensures WindowState(l, entries, key, now)
  {
    hide RuleOf, Tracks, Spent, Pending, Percent;
    RowIsPast(l, key, t, now);
    SpentShrinks(entries, t - Span(key.rule), now - Span(key.rule));
  }

  lemma StepKeepsWindow(l: Ledger, event: Event, entries: seq<Entry>, t: int, now: int, key: Key)
    requires IsWindow(key.rule) && WindowState(l, entries, key, t) && t <= now && Legal(l, event) && Steady(l, event)
    requires IsStaticIpWindow(key.rule) ==> key.region == None
    ensures WindowState(Apply(l, event, now), entries + EntryOf(l, event, now, key), key, now)
  {
    hide RuleOf, Reserve, Apply, SaneRow, Tracks, Spent, Outstanding, BucketAt, ReservationsSound, Percent, Legal,
        Steady, Charges;
    WindowLater(l, entries, t, now, key);
    ApplyKeepsSane(l, event, t, now);
    ApplyKeepsReservationsSound(l, event, now);
    CapacityNeverDrops(l, event, now, key.rule);
    if Hits(l, event, now, key) {
      HitKeepsWindow(l, event.write, entries, now, key);
    } else {
      MissKeepsWindow(l, event, entries, now, key);
      assert entries + EntryOf(l, event, now, key) == entries;
    }
  }

  lemma {:induction false} RunKeepsWindow(l: Ledger, start: int, run: seq<Timed>, key: Key)
    requires Untouched(l) && LegalRun(l, run) && InOrder(start, run) && SteadyRun(l, run)
    requires IsWindow(key.rule) && (IsStaticIpWindow(key.rule) ==> key.region == None)
    ensures WindowState(After(l, run), History(l, run, key), key, End(start, run))
  {
    if run == [] {
      WindowFacts(l, key.rule);
      assert Pending(l) == {};
    } else {
      hide RuleOf, Reserve, Lowest, Apply, SaneRow, Tracks, Spent, Pending, Percent, Legal, Hits, Span;
      var n := |run| - 1;
      RunKeepsWindow(l, start, run[..n], key);
      StepKeepsWindow(After(l, run[..n]), run[n].event, History(l, run[..n], key), End(start, run[..n]), run[n].at,
          key);
    }
  }

  /** In every reachable state, at any later moment, the writes in a window (releases aside)
      plus the outstanding reservations stay within the window's capacity. */
  lemma WindowConservation(l: Ledger, start: int, run: seq<Timed>, key: Key, t: int)
    requires Untouched(l) && LegalRun(l, run) && InOrder(start, run) && SteadyRun(l, run)
    requires IsWindow(key.rule) && (IsStaticIpWindow(key.rule) ==> key.region == None)
    requires End(start, run) <= t
    ensures Spent(History(l, run, key), t - Span(key.rule)) + Outstanding(After(l, run), key.rule)
            <= RuleOf(key.rule, Percent(After(l, run))).capacity
  {
    hide RuleOf, Reserve, Apply, SaneRow, Tracks, Pending, Percent, Legal, Hits, Span, Spent;
    RunKeepsWindow(l, start, run, key);
    SpentShrinks(History(l, run, key), End(start, run) - Span(key.rule), t - Span(key.rule));
  }

  /** Dispatching a reserved step moves one unit from the reservations to the window. */
  lemma {:induction false} ConsumingKeepsTheSum(l: Ledger, w: Write, entries: seq<Entry>, now: int, id: RuleId)
    requires Sane(l, now) && ReservationsSound(l) && IsWindow(id) && IsStaticIpWindow(id)
    requires Reserve(l, w, now).1.Allowed? && !w.action.StaticIpRelease?
    requires DemandOf(l, w).owns && DemandOf(l, w).claims == {}
    ensures var l' := Apply(l, Dispatch(w), now);
            var longer := entries + [Entry(now, false)];
            Spent(longer, now - Span(id)) + Outstanding(l', id) == Spent(entries, now - Span(id)) + Outstanding(l, id)
  {
    WindowFacts(l, id);
    PendingAfterStaticIp(l, w, now);
    var longer := entries + [Entry(now, false)];
    assert longer[..|longer| - 1] == entries;
  }

  // ---------------------------------------------------------------- reserved plans never stall

  predicate InPlan(l: Ledger, first: StepId, s: StepId) {
    && first in l.steps && s in l.steps
    && l.steps[s].attempt == l.steps[first].attempt && l.steps[s].sequence >= l.steps[first].sequence
  }

  predicate AwaitsDispatch(step: PlanStep) {
    !step.dispatched && step.open && Reservable(step.action)
  }

  /** Every later step of the plan that still awaits its first dispatch has a reservation. */
  predicate PlanReserved(l: Ledger, first: StepId) {
    forall s :: s in l.steps && InPlan(l, first, s) && AwaitsDispatch(l.steps[s]) ==> s in l.reservations
  }

  lemma FirstAdmissionReservesPlan(l: Ledger, w: Write, now: int)
    requires Sane(l, now) && IsStaticIp(w.action) && !w.action.StaticIpRelease?
    requires Reserve(l, w, now).1.Allowed? && w.step in l.steps && l.steps[w.step].attempt in l.live
    ensures PlanReserved(Apply(l, Dispatch(w), now), w.step)
  {
    AdmissionEffect(l, w, now);
    hide Reserve, Apply, RuleOf;
    var l' := Apply(l, Dispatch(w), now);
    forall s | s in l'.steps && InPlan(l', w.step, s) && AwaitsDispatch(l'.steps[s])
      ensures s in l'.reservations
    {
      assert s in Remaining(l, w.step);
    }
  }

  lemma ApplyKeepsPlanReserved(l: Ledger, event: Event, now: int, first: StepId)
    requires Sane(l, now) && Legal(l, event) && first in l.steps && PlanReserved(l, first)
    ensures first in Apply(l, event, now).steps && PlanReserved(Apply(l, event, now), first)
  {
    hide RuleOf, Lowest, Worst, Charged;
    var l' := Apply(l, event, now);
    forall s | s in l'.steps && InPlan(l', first, s) && AwaitsDispatch(l'.steps[s])
      ensures s in l'.reservations
    {
      assert s in l.steps;
      assert InPlan(l, first, s);
    }
  }

  lemma {:induction false} RunKeepsPlanReserved(l: Ledger, start: int, run: seq<Timed>, first: StepId)
    requires Sane(l, start) && LegalRun(l, run) && InOrder(start, run)
    requires first in l.steps && PlanReserved(l, first) && ReservationsSound(l)
    ensures var l' := After(l, run); first in l'.steps && PlanReserved(l', first) && ReservationsSound(l')
  {
    if run != [] {
      hide RuleOf, Reserve, Lowest, Apply, SaneRow, Legal, PlanReserved, ReservationsSound;
      var n := |run| - 1;
      RunKeepsPlanReserved(l, start, run[..n], first);
      RunKeepsSane(l, start, run[..n]);
      RowIsPast(After(l, run[..n]), Key(StaticIpHour, None), End(start, run[..n]), run[n].at);
      ApplyKeepsReservationsSound(After(l, run[..n]), run[n].event, run[n].at);
      ApplyKeepsPlanReserved(After(l, run[..n]), run[n].event, run[n].at, first);
    }
  }

  predicate RefusedByWindow(admission: Admission) {
    || admission == Thrown(LimitTooLow)
    || (admission.Denied? && admission.reason.Budget? && IsStaticIpWindow(admission.reason.rule))
  }

  lemma ReservedStepIsExempt(l: Ledger, first: StepId, w: Write)
    requires PlanReserved(l, first) && ReservationsSound(l)
    requires IsStaticIp(w.action) && InPlan(l, first, w.step)
    requires l.steps[w.step].attempt in l.live && AwaitsDispatch(l.steps[w.step])
    ensures var d := DemandOf(l, w); d.owns && d.claims == {}
  {
    var claims := Unreserved(l, w.step);
    if s :| s in claims {
      assert InPlan(l, first, s);
      assert false;
    }
  }

  /** Rules whose windows are exempt never cause a window refusal. */
  lemma ExemptNeverRefused(l: Ledger, rules: seq<Rule>, w: Write, now: int)
    requires forall i :: 0 <= i < |rules| ==> WellFormed(rules[i])
    requires forall i :: 0 <= i < |rules| && IsStaticIpWindow(rules[i].id) ==> rules[i].kind.SlidingWindow?
    requires var d := DemandOf(l, w); d.dynamic && d.owns && d.claims == {}
    ensures !RefusedByWindow(Decide(l, rules, w, now).1)
  {
    var d := DemandOf(l, w);
    hide DemandOf, PlanMatches, PlanSupported, Charged, RetryTime, Used;
    WorstIsLatest(l, rules, w.region, d, now);
  }

  /** Once a static-IP step of a plan has been admitted, no window ever refuses the first
      dispatch of a later step of that plan while the attempt stays live, whatever traffic,
      policy change or switch happens in between. */
  lemma {:induction false} ReservedPlanNeverStalls(
    l: Ledger, start: int, first: Write, admittedAt: int, run: seq<Timed>, w: Write, now: int)
    requires Sane(l, start) && ReservationsSound(l) && start <= admittedAt
    requires IsStaticIp(first.action) && !first.action.StaticIpRelease? && Reserve(l, first, admittedAt).1.Allowed?
    requires first.step in l.steps && l.steps[first.step].attempt in l.live
    requires ValidPolicies(Apply(l, Dispatch(first), admittedAt))
    requires var l1 := Apply(l, Dispatch(first), admittedAt); LegalRun(l1, run) && InOrder(admittedAt, run)
    requires var l2 := After(Apply(l, Dispatch(first), admittedAt), run);
             && ValidPolicies(l2)
             && IsStaticIp(w.action) && InPlan(l2, first.step, w.step)
             && l2.steps[w.step].attempt in l2.live && AwaitsDispatch(l2.steps[w.step])
    ensures !RefusedByWindow(Reserve(After(Apply(l, Dispatch(first), admittedAt), run), w, now).1)
  {
    var l1 := Apply(l, Dispatch(first), admittedAt);
    RowIsPast(l, Key(StaticIpHour, None), start, admittedAt);
    FirstAdmissionReservesPlan(l, first, admittedAt);
    ApplyKeepsSane(l, Dispatch(first), start, admittedAt);
    ApplyKeepsReservationsSound(l, Dispatch(first), admittedAt);
    assert first.step in l1.steps by { AdmissionEffect(l, first, admittedAt); }
    RunKeepsPlanReserved(l1, admittedAt, run, first.step);
    WindowRefusalNeedsClaims(After(l1, run), first.step, w, now);
  }

  lemma WindowRefusalNeedsClaims(l: Ledger, first: StepId, w: Write, now: int)
    requires ValidPolicies(l) && PlanReserved(l, first) && ReservationsSound(l)
    requires IsStaticIp(w.action) && InPlan(l, first, w.step)
    requires l.steps[w.step].attempt in l.live && AwaitsDispatch(l.steps[w.step])
    ensures !RefusedByWindow(Reserve(l, w, now).1)
  {
    ReservedStepIsExempt(l, first, w);
    if Supported(l.service, w.action) {
      PercentIsValid(l);
      RulesForActionAreSound(l.service, w.action, Percent(l));
      ExemptNeverRefused(l, RulesInForce(l, w.action), w, now);
    }
  }
}
