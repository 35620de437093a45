/** Admission of cloud writes: debt-style token buckets, sliding windows, reservations for
    the rest of a static-IP plan, vendor cooldowns and policy changes.

    One ledger holds the rows of one budget identity (provider, external account, service).
    Transactions on it are serialised by the advisory lock, so each one is a single step.
    Times are milliseconds of the database clock; quantities are exact. */
module CloudLimits {
  import opened Wrappers
  import opened CloudLimitRules

  type Region = nat
  type StepId = nat
  type AttemptId = nat

  /** The tolerance of the admission comparison. */
  const SLACK: real := 0.000000001

  datatype Key = Key(rule: RuleId, region: Option<Region>)

  /** `debt` is used by token buckets, `events` (admission times) by sliding windows. */
  datatype Bucket = Bucket(debt: real, events: seq<int>, updatedAt: int)

  datatype Cooldown = Cooldown(until: int, throttles: int, updatedAt: int)

  /** A durable plan step; `open` means prepared, not applied, or rejected without effect. */
  datatype PlanStep = PlanStep(attempt: AttemptId, sequence: nat, action: Action, dispatched: bool, open: bool)

  datatype Ledger = Ledger(
    service: Service,
    enabled: bool,
    percents: seq<int>,                    // one policy for each account sharing the identity
    buckets: map<Key, Bucket>,
    cooldown: Option<Cooldown>,
    reservations: map<StepId, bool>,       // true once consumed
    steps: map<StepId, PlanStep>,
    live: set<AttemptId>)                  // current attempts of incidents that are not over

  datatype Write = Write(
    action: Action,
    region: Region,
    step: StepId,
    idleRelease: bool,                     // an idle-address release holds the region
    remaining: seq<(StepId, Action)>)

  datatype Refusal = IdleIpCleanup | InCooldown | Budget(rule: RuleId)
  datatype Error = UnsupportedAction | InvalidReservationStep | LimitTooLow
  datatype Admission = Allowed | Denied(reason: Refusal, retryAt: int) | Thrown(error: Error)

  function Lowest(percents: seq<int>): int
    requires percents != []
  {
    if |percents| == 1 then percents[0]
    else
      var rest := Lowest(percents[1..]);
      if percents[0] < rest then percents[0] else rest
  }

  function Percent(l: Ledger): int {
    if l.percents == [] then 80 else Lowest(l.percents)
  }

  function BucketAt(l: Ledger, key: Key): Option<Bucket> {
    if key in l.buckets then Some(l.buckets[key]) else None
  }

  function KeyFor(rule: Rule, region: Region): Key {
    Key(rule.id, if rule.global then None else Some(region))
  }

  // ---------------------------------------------------------------- the state of one budget

  function Seconds(from: int, to: int): real {
    if to <= from then 0.0 else (to - from) as real / 1000.0
  }

  function LiveDebt(bucket: Option<Bucket>, refill: real, now: int): real {
    if bucket.None? then 0.0
    else
      var rest := bucket.value.debt - Seconds(bucket.value.updatedAt, now) * refill;
      if rest < 0.0 then 0.0 else rest
  }

  /** The events later than `cut`, in order. */
  function Recent(events: seq<int>, cut: int): seq<int> {
    if events == [] then []
    else
      var earlier := Recent(events[..|events| - 1], cut);
      if events[|events| - 1] > cut then earlier + [events[|events| - 1]] else earlier
  }

  function LiveEvents(bucket: Option<Bucket>, windowSeconds: int, now: int): seq<int> {
    if bucket.None? then [] else Recent(bucket.value.events, now - windowSeconds * 1000)
  }

  // ---------------------------------------------------------------- what a write asks for

  function Pending(l: Ledger): set<StepId> {
    set s | s in l.reservations && !l.reservations[s] && s in l.steps && l.steps[s].attempt in l.live
  }

  /** The open steps of the same live attempt from this one on. */
  function Remaining(l: Ledger, step: StepId): set<StepId> {
    set s | s in l.steps && step in l.steps && l.steps[s].attempt == l.steps[step].attempt
            && l.steps[s].sequence >= l.steps[step].sequence && l.steps[s].attempt in l.live && l.steps[s].open
  }

  predicate Reservable(action: Action) {
    action.StaticIpAllocate? || action.StaticIpDetach? || action.StaticIpAttach?
  }

  function Unreserved(l: Ledger, step: StepId): set<StepId> {
    set s | s in Remaining(l, step) && s != step && !l.steps[s].dispatched && s !in l.reservations
            && Reservable(l.steps[s].action)
  }

  predicate PlanMatches(l: Ledger, w: Write) {
    && w.step in Remaining(l, w.step) && l.steps[w.step].action == w.action
    && (forall supplied :: supplied in w.remaining ==>
          supplied.0 in Remaining(l, w.step) && l.steps[supplied.0].action == supplied.1)
  }

  /** No remaining step has an action the service does not know. */
  predicate PlanSupported(l: Ledger, w: Write) {
    forall s :: s in Remaining(l, w.step) ==> Supported(l.service, l.steps[s].action)
  }

  /** `dynamic` is the static-IP family; `claims` are the steps it would newly reserve. */
  datatype Demand = Demand(dynamic: bool, release: bool, owns: bool, outstanding: nat, claims: set<StepId>)

  function DemandOf(l: Ledger, w: Write): Demand {
    var dynamic := IsStaticIp(w.action);
    var release := w.action.StaticIpRelease?;
    Demand(dynamic, release,
           dynamic && w.step in Pending(l),
           if dynamic then |Pending(l)| else 0,
           if dynamic && !release then Unreserved(l, w.step) else {})
  }

  function Required(rule: Rule, d: Demand): nat {
    if rule.kind.SlidingWindow? && d.dynamic then (if d.owns then 0 else 1) + |d.claims| else 1
  }

  function Used(rule: Rule, bucket: Option<Bucket>, d: Demand, now: int): real {
    match rule.kind
    case TokenBucket(refill) => LiveDebt(bucket, refill, now)
    case SlidingWindow(window) => (|LiveEvents(bucket, window, now)| + d.outstanding) as real
  }

  predicate Exempt(rule: Rule, d: Demand) {
    d.dynamic && rule.kind.SlidingWindow? && (d.release || (d.owns && Required(rule, d) == 0))
  }

  predicate Refuses(enabled: bool, rule: Rule, bucket: Option<Bucket>, d: Demand, now: int) {
    enabled && !Exempt(rule, d)
    && Used(rule, bucket, d, now) + Required(rule, d) as real > rule.capacity as real + SLACK
  }

  predicate TooLow(enabled: bool, rule: Rule, d: Demand) {
    enabled && d.dynamic && !d.release && rule.kind.SlidingWindow? && Required(rule, d) > rule.capacity
  }

  function Ceiling(x: real): int { -((-x).Floor) }

  /** When to come back after this rule refused. */
  function RetryTime(rule: Rule, bucket: Option<Bucket>, outstanding: nat, required: nat, now: int): int
    requires WellFormed(rule)
  {
    match rule.kind
    case TokenBucket(refill) =>
      var excess := LiveDebt(bucket, refill, now) + required as real - rule.capacity as real;
      now + Ceiling((if excess < 0.0 then 0.0 else excess) / refill * 1000.0)
    case SlidingWindow(window) =>
      var events := LiveEvents(bucket, window, now);
      var expire := |events| + outstanding + required - rule.capacity;
      if 1 <= expire <= |events| then events[expire - 1] + window * 1000 else now + 60000
  }

  // ---------------------------------------------------------------- admission

  predicate ValidPolicies(l: Ledger) {
    l.percents != [] && forall p :: p in l.percents ==> ValidPercent(p)
  }

  lemma PercentIsValid(l: Ledger)
    requires ValidPolicies(l)
    ensures ValidPercent(Percent(l)) && Percent(l) in l.percents
    ensures forall p :: p in l.percents ==> Percent(l) <= p
  {
    LowestIsLeast(l.percents);
  }

  lemma {:induction false} LowestIsLeast(percents: seq<int>)
    requires percents != []
    ensures Lowest(percents) in percents
    ensures forall p :: p in percents ==> Lowest(percents) <= p
  {
    if |percents| > 1 {
      LowestIsLeast(percents[1..]);
      assert forall p :: p in percents ==> p == percents[0] || p in percents[1..];
    }
  }

  datatype Verdict = Fine | Refused(rule: RuleId, retryAt: int)

  /** Among the rules that refuse, the one to wait longest for; the first such one on a tie. */
  function Worst(l: Ledger, rules: seq<Rule>, region: Region, d: Demand, now: int): Verdict
    requires forall i :: 0 <= i < |rules| ==> WellFormed(rules[i])
  {
    if rules == [] then Fine
    else
      var rule := rules[|rules| - 1];
      var earlier := Worst(l, rules[..|rules| - 1], region, d, now);
      var bucket := BucketAt(l, KeyFor(rule, region));
      if Refuses(l.enabled, rule, bucket, d, now) then
        var retryAt := RetryTime(rule, bucket, d.outstanding, Required(rule, d), now);
        if earlier.Fine? || retryAt > earlier.retryAt then Refused(rule.id, retryAt) else earlier
      else earlier
  }

  function Charge(rule: Rule, bucket: Option<Bucket>, now: int): Bucket {
    match rule.kind
    case TokenBucket(refill) => Bucket(LiveDebt(bucket, refill, now) + 1.0, [], now)
    case SlidingWindow(window) => Bucket(0.0, LiveEvents(bucket, window, now) + [now], now)
  }

  /** The rows after one admission: every rule's row is charged from its state in `l`. */
  function Charged(l: Ledger, rules: seq<Rule>, region: Region, now: int): map<Key, Bucket> {
    if rules == [] then l.buckets
    else
      var rule := rules[|rules| - 1];
      Charged(l, rules[..|rules| - 1], region, now)
        [KeyFor(rule, region) := Charge(rule, BucketAt(l, KeyFor(rule, region)), now)]
  }

  function ReservationsAfter(reservations: map<StepId, bool>, step: StepId, d: Demand): map<StepId, bool> {
    var added := reservations + (map s | s in d.claims :: false);
    if d.owns then added[step := true] else added
  }

  /** The decision against the rules in force, once no pause applies. */
  function Decide(l: Ledger, rules: seq<Rule>, w: Write, now: int): (Ledger, Admission)
    requires forall i :: 0 <= i < |rules| ==> WellFormed(rules[i])
  {
    var d := DemandOf(l, w);
    if d.dynamic && !d.release && !PlanMatches(l, w) then (l, Thrown(InvalidReservationStep))
    else if d.dynamic && !d.release && !PlanSupported(l, w) then (l, Thrown(UnsupportedAction))
    else if exists i :: 0 <= i < |rules| && TooLow(l.enabled, rules[i], d) then (l, Thrown(LimitTooLow))
    else
      match Worst(l, rules, w.region, d, now)
      case Refused(id, retryAt) => (l, Denied(Budget(id), retryAt))
      case Fine =>
        (l.(buckets := Charged(l, rules, w.region, now), reservations := ReservationsAfter(l.reservations, w.step, d)),
         Allowed)
  }

  /** The rules a write is checked against at the policy in force. */
  function RulesInForce(l: Ledger, action: Action): (rules: seq<Rule>)
    requires ValidPolicies(l) && Supported(l.service, action)
    ensures forall i :: 0 <= i < |rules| ==> WellFormed(rules[i])
  {
    PercentIsValid(l);
    RulesForActionAreSound(l.service, action, Percent(l));
    RulesForAction(l.service, action, Percent(l))
  }

  /** One admission transaction. Only an admission changes a row. */
  function Reserve(l: Ledger, w: Write, now: int): (Ledger, Admission)
    requires ValidPolicies(l)
  {
    if !Supported(l.service, w.action) then (l, Thrown(UnsupportedAction))
    else if l.service == Lightsail && w.idleRelease then (l, Denied(IdleIpCleanup, now + 5000))
    else if l.cooldown.Some? && l.cooldown.value.until > now then (l, Denied(InCooldown, l.cooldown.value.until))
    else Decide(l, RulesInForce(l, w.action), w, now)
  }

  // ---------------------------------------------------------------- throttles and policies

  function Clamp(x: int, low: int, high: int): int {
    if x < low then low else if x > high then high else x
  }

  function Backoff(throttles: int): int
    requires 1 <= throttles <= 7
  {
    var factor :=
      match throttles case 1 => 1 case 2 => 2 case 3 => 4 case 4 => 8 case 5 => 16 case 6 => 32 case 7 => 64;
    Clamp(60000 * factor, 0, 3600000)
  }

  predicate ValidCooldown(cooldown: Option<Cooldown>) {
    cooldown.Some? ==> 1 <= cooldown.value.throttles <= 7
  }

  /** A quiet hour resets the escalation; a vendor hint can only lengthen the pause. */
  function Throttled(previous: Option<Cooldown>, retryAfter: Option<int>, now: int): Cooldown
    requires ValidCooldown(previous)
  {
    var recent := previous.Some? && now - previous.value.updatedAt < 3600000;
    var throttles := if recent then Clamp(previous.value.throttles + 1, 1, 7) else 1;
    var hint := Clamp(retryAfter.GetOr(0), 0, 86400000);
    var wait := if Backoff(throttles) < hint then hint else Backoff(throttles);
    var floor := if previous.Some? then previous.value.until else 0;
    Cooldown(if floor < now + wait then now + wait else floor, throttles, now)
  }

  /** The cooldown row after the first `n` throttles, with the vendor's hints. */
  function Streak(times: seq<int>, hints: seq<Option<int>>, n: nat): (c: Option<Cooldown>)
    requires n <= |times| && n <= |hints|
    ensures ValidCooldown(c)
  {
    if n == 0 then None else Some(Throttled(Streak(times, hints, n - 1), hints[n - 1], times[n - 1]))
  }

  const PAUSES_IN_SECONDS := [60, 120, 240, 480, 960, 1920, 3600]

  /** Throttles less than an hour apart pause writes for ever longer, up to an hour; no throttle
      brings the end of a pause forward, whatever the vendor hints. */
  lemma {:induction false} ThrottlesEscalate(times: seq<int>, hints: seq<Option<int>>, n: nat)
    requires 0 < n <= |times| && n <= |hints|
    requires forall i :: 0 < i < n ==> times[i - 1] <= times[i] < times[i - 1] + 3600000
    ensures var c := Streak(times, hints, n).value; var level := if n < 7 then n else 7;
            && c.throttles == level && c.updatedAt == times[n - 1]
            && c.until >= times[n - 1] + 1000 * PAUSES_IN_SECONDS[level - 1]
    ensures n > 1 ==> Streak(times, hints, n).value.until >= Streak(times, hints, n - 1).value.until
  {
    if n > 1 {
      ThrottlesEscalate(times, hints, n - 1);
    }
  }

  function SettledRow(kind: Kind, bucket: Bucket, now: int): Bucket {
    match kind
    case TokenBucket(refill) => bucket.(debt := LiveDebt(Some(bucket), refill, now), updatedAt := now)
    case SlidingWindow(_) => bucket
  }

  function Settled(l: Ledger, now: int): map<Key, Bucket> {
    map key | key in l.buckets :: SettledRow(RuleOf(key.rule, Percent(l)).kind, l.buckets[key], now)
  }

  function SetPolicy(l: Ledger, account: nat, percent: int, enabled: Option<bool>, now: int): Ledger
    requires account < |l.percents|
  {
    l.(buckets := Settled(l, now),
       percents := l.percents[account := percent],
       enabled := enabled.GetOr(l.enabled))
  }

  // ---------------------------------------------------------------- the tables in place

  class CloudLimiter {
    const service: Service
    var enabled: bool
    var percents: seq<int>
    var buckets: map<Key, Bucket>
    var cooldown: Option<Cooldown>
    var reservations: map<StepId, bool>
    var steps: map<StepId, PlanStep>
    var live: set<AttemptId>

    function Contents(): Ledger
      reads this
    {
      Ledger(service, enabled, percents, buckets, cooldown, reservations, steps, live)
    }

    constructor (service: Service, accounts: nat)
      requires accounts > 0
      ensures Contents() == Ledger(service, true, seq(accounts, _ => 80), map[], None, map[], map[], {})
      ensures ValidPolicies(Contents())
    {
      this.service := service;
      enabled := true;
      percents := seq(accounts, _ => 80);
      buckets, cooldown, reservations, steps, live := map[], None, map[], map[], {};
    }

    /** The checking loop: what would be written, and the worst refusal. */
    method Judge(rules: seq<Rule>, region: Region, d: Demand, now: int)
      returns (updates: seq<(Key, Bucket)>, refusal: Verdict, tooLow: bool)
      requires forall i :: 0 <= i < |rules| ==> WellFormed(rules[i])
      ensures tooLow <==> exists i :: 0 <= i < |rules| && TooLow(enabled, rules[i], d)
      ensures !tooLow ==> refusal == Worst(Contents(), rules, region, d, now)
      ensures !tooLow ==> |updates| == |rules|
      ensures !tooLow ==> forall i :: 0 <= i < |rules| ==>
                            updates[i] == (KeyFor(rules[i], region),
                                           Charge(rules[i], BucketAt(Contents(), KeyFor(rules[i], region)), now))
    {
      updates, refusal, tooLow := [], Fine, false;
      for i := 0 to |rules|
        invariant !tooLow && |updates| == i
        invariant refusal == Worst(Contents(), rules[..i], region, d, now)
        invariant forall j :: 0 <= j < i ==>
                                updates[j] == (KeyFor(rules[j], region),
                                               Charge(rules[j], BucketAt(Contents(), KeyFor(rules[j], region)), now))
        invariant forall j :: 0 <= j < i ==> !TooLow(enabled, rules[j], d)
      {
        assert rules[..i + 1][..i] == rules[..i];
        var rule := rules[i];
        var key := KeyFor(rule, region);
        var bucket := BucketAt(Contents(), key);
        if TooLow(enabled, rule, d) {
          tooLow := true;
          return;
        }
        if Refuses(enabled, rule, bucket, d, now) {
          var retryAt := RetryTime(rule, bucket, d.outstanding, Required(rule, d), now);
          if refusal.Fine? || retryAt > refusal.retryAt {
            refusal := Refused(rule.id, retryAt);
          }
        }
        updates := updates + [(key, Charge(rule, bucket, now))];
      }
      assert rules[..|rules|] == rules;
    }

    /** The writing loop over bucket rows; every row's new value was computed beforehand. */
    method WriteRows(rules: seq<Rule>, updates: seq<(Key, Bucket)>, region: Region, now: int, ghost before: Ledger)
      requires |updates| == |rules| && buckets == before.buckets
      requires forall i :: 0 <= i < |rules| ==>
                 updates[i] == (KeyFor(rules[i], region),
                                Charge(rules[i], BucketAt(before, KeyFor(rules[i], region)), now))
      modifies this`buckets
      ensures buckets == Charged(before, rules, region, now)
    {
      for i := 0 to |rules|
        invariant buckets == Charged(before, rules[..i], region, now)
      {
        assert rules[..i + 1][..i] == rules[..i];
        buckets := buckets[updates[i].0 := updates[i].1];
      }
      assert rules[..|rules|] == rules;
    }

    method WriteReservations(step: StepId, d: Demand)
      modifies this`reservations
      ensures reservations == ReservationsAfter(old(reservations), step, d)
    {
      reservations := reservations + (map s | s in d.claims :: false);
      if d.owns {
        reservations := reservations[step := true];
      }
    }

    method DecideWrite(rules: seq<Rule>, w: Write, now: int) returns (admission: Admission)
      requires forall i :: 0 <= i < |rules| ==> WellFormed(rules[i])
      modifies this
      ensures (Contents(), admission) == Decide(old(Contents()), rules, w, now)
    {
      ghost var before := Contents();
      var d := DemandOf(Contents(), w);
      if d.dynamic && !d.release && !PlanMatches(Contents(), w) {
        return Thrown(InvalidReservationStep);
      }
      if d.dynamic && !d.release && !PlanSupported(Contents(), w) {
        return Thrown(UnsupportedAction);
      }
      var updates, refusal, tooLow := Judge(rules, w.region, d, now);
      if tooLow {
        return Thrown(LimitTooLow);
      }
      if refusal.Refused? {
        return Denied(Budget(refusal.rule), refusal.retryAt);
      }
      WriteRows(rules, updates, w.region, now, before);
      WriteReservations(w.step, d);
      return Allowed;
    }

    method ReserveWrite(w: Write, now: int) returns (admission: Admission)
      requires ValidPolicies(Contents())
      modifies this
      ensures (Contents(), admission) == Reserve(old(Contents()), w, now)
    {
      if !Supported(service, w.action) {
        return Thrown(UnsupportedAction);
      }
      if service == Lightsail && w.idleRelease {
        return Denied(IdleIpCleanup, now + 5000);
      }
      if cooldown.Some? && cooldown.value.until > now {
        return Denied(InCooldown, cooldown.value.until);
      }
      admission := DecideWrite(RulesInForce(Contents(), w.action), w, now);
    }

    method RecordThrottle(action: Action, retryAfter: Option<int>, now: int) returns (until: Option<int>)
      requires ValidCooldown(cooldown)
      modifies this`cooldown
      ensures ValidCooldown(cooldown)
      ensures !Supported(service, action) ==> until == None && cooldown == old(cooldown)
      ensures Supported(service, action) ==>
                && cooldown == Some(Throttled(old(cooldown), retryAfter, now))
                && until == Some(cooldown.value.until)
    {
      if !Supported(service, action) {
        return None;
      }
      cooldown := Some(Throttled(cooldown, retryAfter, now));
      return Some(cooldown.value.until);
    }

    /** The settling loop over the identity's rows. */
    method SettleRows(rate: int, now: int, ghost before: Ledger)
      requires buckets == before.buckets && rate == Percent(before)
      modifies this`buckets
      ensures buckets == Settled(before, now)
    {
      hide RuleOf, Percent, SettledRow;
      var todo := buckets.Keys;
      while todo != {}
        invariant todo <= before.buckets.Keys && buckets.Keys == before.buckets.Keys
        invariant forall key :: key in todo ==> buckets[key] == before.buckets[key]
        invariant forall key :: key in buckets && key !in todo ==>
                                  buckets[key] == SettledRow(RuleOf(key.rule, rate).kind, before.buckets[key], now)
        decreases |todo|
      {
        var key :| key in todo;
        buckets := buckets[key := SettledRow(RuleOf(key.rule, rate).kind, buckets[key], now)];
        todo := todo - {key};
      }
      assert buckets == Settled(before, now);
    }

    /** Every token bucket is settled at the old rate before the policy row changes. */
    method SetPolicyRow(account: nat, percent: int, switch: Option<bool>, now: int)
      requires account < |percents| && ValidPercent(percent)
      modifies this
      ensures Contents() == SetPolicy(old(Contents()), account, percent, switch, now)
    {
      hide RuleOf, Percent, Settled;
      SettleRows(Percent(Contents()), now, Contents());
      percents := percents[account := percent];
      enabled := switch.GetOr(enabled);
    }
  }
}
