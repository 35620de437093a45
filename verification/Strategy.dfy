/** Assignment of DNS bindings to endpoints: the decision pass of one reconcile. */
module Strategy {
  import opened Wrappers

  /** Endpoint and binding ids, numbered in their collation order. */
  type Id = nat

  datatype Family = Ipv4 | Ipv6
  datatype Health = Unknown | Healthy | Degraded | Unhealthy | Recovering
  datatype Trigger = Failure | Recovery | Rebalance | Configuration | Repair
  datatype SelectionMode = Ordered | LeastAssigned | Random | RoundRobin
  datatype RecoveryMode = KeepCurrent | Manual | Automatic | Delayed
  datatype Reason = ForFailure | ForRecovery | ForRebalance | NoHealthyEndpoint

  datatype Endpoint = Endpoint(
    id: Id, priority: int, enabled: bool, health: Health, families: set<Family>, load: int)

  /** `draw` is the stable hash of the event and the binding. */
  datatype Binding = Binding(
    id: Id,
    current: seq<Id>,
    original: Option<Id>,
    family: Option<Family>,
    states: Option<map<Id, Health>>,
    draw: nat)

  /** One cursor for each address family and set of candidates. */
  datatype CursorKey = CursorKey(family: Option<Family>, ids: set<Id>)

  datatype Context = Context(
    trigger: Trigger,
    mode: SelectionMode,
    recovery: RecoveryMode,
    endpoints: seq<Endpoint>,
    bindings: seq<Binding>,
    cursor: Option<Id>,
    cursors: map<CursorKey, Id>)

  datatype Decision = Decision(binding: Id, previous: seq<Id>, desired: seq<Id>, reason: Reason)

  datatype Outcome = Outcome(decisions: seq<Decision>, cursors: Option<map<CursorKey, Id>>, noHealthyEndpoints: bool)

  predicate DistinctEndpoints(endpoints: seq<Endpoint>) {
    forall i, j :: 0 <= i < j < |endpoints| ==> endpoints[i].id != endpoints[j].id
  }

  // ---------------------------------------------------------------- candidates

  predicate HealthyEnough(health: Health) { health.Healthy? || health.Degraded? }

  predicate Available(e: Endpoint) { e.enabled && HealthyEnough(e.health) }

  predicate Supports(b: Binding, e: Endpoint) { b.family.Some? ==> b.family.value in e.families }

  predicate Suits(b: Binding, e: Endpoint) {
    && Supports(b, e)
    && match b.states
       case None => Available(e)
       case Some(states) => e.enabled && e.id in states && HealthyEnough(states[e.id])
  }

  function Candidates(b: Binding, working: seq<Endpoint>): seq<Endpoint> {
    if working == [] then []
    else
      var last := working[|working| - 1];
      Candidates(b, working[..|working| - 1]) + if Suits(b, last) then [last] else []
  }

  function Ids(endpoints: seq<Endpoint>): set<Id> {
    set i | 0 <= i < |endpoints| :: endpoints[i].id
  }

  function KeyOf(b: Binding, candidates: seq<Endpoint>): CursorKey {
    CursorKey(b.family, Ids(candidates))
  }

  // ---------------------------------------------------------------- selection

  predicate Before(a: Endpoint, b: Endpoint) {
    a.priority < b.priority || (a.priority == b.priority && a.id <= b.id)
  }

  predicate LessLoaded(a: Endpoint, b: Endpoint) {
    a.load < b.load || (a.load == b.load && Before(a, b))
  }

  function Insert(e: Endpoint, sorted: seq<Endpoint>): seq<Endpoint> {
    if sorted == [] || Before(e, sorted[0]) then [e] + sorted else [sorted[0]] + Insert(e, sorted[1..])
  }

  /** Candidates by priority, then id. */
  function Ranked(candidates: seq<Endpoint>): seq<Endpoint> {
    if candidates == [] then [] else Insert(candidates[0], Ranked(candidates[1..]))
  }

  /** Head of the list sorted by load, then priority, then id. */
  function Lightest(candidates: seq<Endpoint>): Endpoint
    requires candidates != []
  {
    if |candidates| == 1 then candidates[0]
    else
      var rest := Lightest(candidates[1..]);
      if LessLoaded(candidates[0], rest) then candidates[0] else rest
  }

  /** Position of the id, or -1. */
  function IndexOf(endpoints: seq<Endpoint>, id: Id): int {
    if endpoints == [] then -1
    else if endpoints[0].id == id then 0
    else
      var later := IndexOf(endpoints[1..], id);
      if later < 0 then -1 else later + 1
  }

  lemma {:induction false} IndexOfFinds(endpoints: seq<Endpoint>, id: Id)
    ensures -1 <= IndexOf(endpoints, id) < |endpoints|
    ensures IndexOf(endpoints, id) >= 0 ==> endpoints[IndexOf(endpoints, id)].id == id
    ensures IndexOf(endpoints, id) < 0 <==> id !in Ids(endpoints)
  {
    if endpoints != [] {
      IndexOfFinds(endpoints[1..], id);
      assert Ids(endpoints) == {endpoints[0].id} + Ids(endpoints[1..]) by {
        forall i | 0 < i < |endpoints| ensures endpoints[i].id in Ids(endpoints[1..]) {
          assert endpoints[i] == endpoints[1..][i - 1];
        }
      }
    }
  }

  lemma {:induction false} InsertAdds(e: Endpoint, sorted: seq<Endpoint>)
    ensures multiset(Insert(e, sorted)) == multiset(sorted) + multiset{e} && |Insert(e, sorted)| == |sorted| + 1
    ensures Insert(e, sorted)[0] == e || (sorted != [] && Insert(e, sorted)[0] == sorted[0] && Before(sorted[0], e))
  {
    if sorted != [] && !Before(e, sorted[0]) {
      InsertAdds(e, sorted[1..]);
      assert sorted == [sorted[0]] + sorted[1..];
    }
  }

  predicate Sorted(endpoints: seq<Endpoint>) {
    forall i, j :: 0 <= i < j < |endpoints| ==> Before(endpoints[i], endpoints[j])
  }

  lemma {:induction false} InsertSorts(e: Endpoint, sorted: seq<Endpoint>)
    requires Sorted(sorted)
    ensures Sorted(Insert(e, sorted))
    ensures forall x :: x in Insert(e, sorted) <==> x == e || x in sorted
  {
    if sorted != [] && !Before(e, sorted[0]) {
      InsertSorts(e, sorted[1..]);
      var rest := Insert(e, sorted[1..]);
      assert forall i :: 0 <= i < |rest| ==> rest[i] in rest;
      assert forall x :: x in sorted <==> x == sorted[0] || x in sorted[1..];
    }
  }

  lemma SameElements(a: seq<Endpoint>, b: seq<Endpoint>)
    requires multiset(a) == multiset(b)
    ensures forall e :: e in a <==> e in b
  {
    forall e ensures e in a <==> e in b {
      assert e in a <==> e in multiset(a);
      assert e in b <==> e in multiset(b);
    }
  }

  lemma HeadIsFirst(sorted: seq<Endpoint>)
    requires sorted != [] && Sorted(sorted)
    ensures forall e :: e in sorted ==> Before(sorted[0], e)
  {
  }

  /** Ranking keeps exactly the candidates and puts them in order of priority, then id. */
  lemma {:induction false} RankedIsPermutation(candidates: seq<Endpoint>)
    ensures multiset(Ranked(candidates)) == multiset(candidates) && |Ranked(candidates)| == |candidates|
    ensures Sorted(Ranked(candidates))
    ensures forall e :: e in candidates ==> Before(Ranked(candidates)[0], e)
  {
    hide Insert, Sorted, Before;
    if candidates != [] {
      var rest := Ranked(candidates[1..]);
      RankedIsPermutation(candidates[1..]);
      InsertAdds(candidates[0], rest);
      InsertSorts(candidates[0], rest);
      assert candidates == [candidates[0]] + candidates[1..];
      SameElements(Ranked(candidates), candidates);
      HeadIsFirst(Ranked(candidates));
    } else {
      NothingIsSorted();
    }
  }

  lemma NothingIsSorted()
    ensures Sorted([])
  {
  }

  /** The next endpoint after the cursor in rank order, wrapping; the first without one. */
  function AfterCursor(ranked: seq<Endpoint>, cursor: Option<Id>): Endpoint
    requires ranked != []
  {
    var index := if cursor.Some? then IndexOf(ranked, cursor.value) else -1;
    IndexOfFinds(ranked, cursor.GetOr(0));
    ranked[(index + 1) % |ranked|]
  }

  function Select(candidates: seq<Endpoint>, mode: SelectionMode, b: Binding, cursor: Option<Id>): Option<Endpoint> {
    if candidates == [] then None
    else
      RankedIsPermutation(candidates);
      var ranked := Ranked(candidates);
      match mode
      case Ordered => Some(ranked[0])
      case LeastAssigned => Some(Lightest(ranked))
      case Random => Some(ranked[b.draw % |ranked|])
      case RoundRobin => Some(AfterCursor(ranked, cursor))
  }

  function Find(endpoints: seq<Endpoint>, id: Id): Option<Endpoint> {
    IndexOfFinds(endpoints, id);
    if IndexOf(endpoints, id) < 0 then None else Some(endpoints[IndexOf(endpoints, id)])
  }

  /** The first of the ids that is a candidate. */
  function FirstOf(ids: seq<Id>, candidates: seq<Endpoint>): Option<Endpoint> {
    if ids == [] then None
    else if Find(candidates, ids[0]).Some? then Find(candidates, ids[0])
    else FirstOf(ids[1..], candidates)
  }

  // ---------------------------------------------------------------- one binding

  predicate CurrentHealthy(b: Binding, candidates: seq<Endpoint>) {
    exists i :: 0 <= i < |b.current| && b.current[i] in Ids(candidates)
  }

  predicate RecoversOriginal(c: Context, b: Binding, candidates: seq<Endpoint>) {
    && c.trigger.Recovery? && (c.recovery.Automatic? || c.recovery.Delayed?)
    && b.original.Some? && b.original.value in Ids(candidates) && b.original.value !in b.current
  }

  predicate ShouldSelect(c: Context, b: Binding, candidates: seq<Endpoint>) {
    || c.trigger.Rebalance? || c.trigger.Configuration? || c.trigger.Repair?
    || !CurrentHealthy(b, candidates) || RecoversOriginal(c, b, candidates)
  }

  /** The endpoint chosen for a binding whose own load was already taken off. */
  function Choice(
    c: Context, b: Binding, candidates: seq<Endpoint>, recovers: bool, currentHealthy: bool,
        cursor: Option<Id>): Option<Endpoint>
    requires recovers ==> b.original.Some?
  {
    if recovers then Find(candidates, b.original.value)
    else if c.trigger.Repair? && currentHealthy then FirstOf(b.current, candidates)
    else Select(candidates, c.mode, b, cursor)
  }

  function Floor0(x: int): int { if x < 0 then 0 else x }

  function TakeOff(working: seq<Endpoint>, id: Id): seq<Endpoint> {
    seq(|working|, i requires 0 <= i < |working| =>
      if working[i].id == id then working[i].(load := Floor0(working[i].load - 1)) else working[i])
  }

  function PutOn(working: seq<Endpoint>, id: Id): seq<Endpoint> {
    seq(|working|, i requires 0 <= i < |working| =>
      if working[i].id == id then working[i].(load := working[i].load + 1) else working[i])
  }

  function TakeOffAll(working: seq<Endpoint>, ids: seq<Id>): seq<Endpoint> {
    if ids == [] then working else TakeOff(TakeOffAll(working, ids[..|ids| - 1]), ids[|ids| - 1])
  }

  function PutOnAll(working: seq<Endpoint>, ids: seq<Id>): seq<Endpoint> {
    if ids == [] then working else PutOn(PutOnAll(working, ids[..|ids| - 1]), ids[|ids| - 1])
  }

  /** The evaluation's variables between two bindings. */
  datatype Walk = Walk(
    working: seq<Endpoint>, cursors: map<CursorKey, Id>, decisions: seq<Decision>, noHealthyEndpoints: bool)

  /** What a selection records: the binding now counts at `e`, and the cursor moves there. */
  function Assign(c: Context, b: Binding, key: CursorKey, recovers: bool, released: seq<Endpoint>, e: Endpoint,
      w: Walk): Walk {
    var forced := c.trigger.Repair? || c.trigger.Configuration?;
    var decision := Decision(b.id, b.current, [e.id],
                             if recovers then ForRecovery
                             else if forced || c.trigger.Rebalance? then ForRebalance else ForFailure);
    Walk(PutOn(released, e.id),
         if c.mode.RoundRobin? then w.cursors[key := e.id] else w.cursors,
         if !forced && b.current == [e.id] then w.decisions else w.decisions + [decision],
         w.noHealthyEndpoints)
  }

  function Turn(c: Context, b: Binding, w: Walk): Walk {
    var candidates := Candidates(b, w.working);
    if !ShouldSelect(c, b, candidates) then w
    else
      var key := KeyOf(b, candidates);
      var recovers := RecoversOriginal(c, b, candidates);
      var cursor := if key in w.cursors then Some(w.cursors[key]) else c.cursor;
      var released := TakeOffAll(w.working, b.current);
      match Choice(c, b, Candidates(b, released), recovers, CurrentHealthy(b, candidates), cursor)
      case None =>
        Walk(PutOnAll(released, b.current), w.cursors,
             w.decisions + [Decision(b.id, b.current, b.current, NoHealthyEndpoint)], true)
      case Some(e) => Assign(c, b, key, recovers, released, e, w)
  }

  /** The first `n` bindings of the context, in order. */
  function WalkTo(c: Context, n: nat): Walk
    requires n <= |c.bindings|
  {
    if n == 0 then Walk(c.endpoints, c.cursors, [], false) else Turn(c, c.bindings[n - 1], WalkTo(c, n - 1))
  }

  function Evaluation(c: Context): Outcome {
    var end := WalkTo(c, |c.bindings|);
    Outcome(end.decisions, if c.mode.RoundRobin? then Some(end.cursors) else None, end.noHealthyEndpoints)
  }

  // ---------------------------------------------------------------- the pass in place

  /** A private copy of an endpoint whose load changes as bindings move. `healthy`, the
      candidate lists and the id index all share these objects. */
  class WorkingEndpoint {
    const endpoint: Endpoint
    var activeBindingCount: int

    constructor (endpoint: Endpoint)
      ensures this.endpoint == endpoint && Now() == endpoint
    {
      this.endpoint := endpoint;
      activeBindingCount := endpoint.load;
    }

    function Now(): Endpoint
      reads this
    {
      endpoint.(load := activeBindingCount)
    }
  }

  function Values(objects: seq<WorkingEndpoint>): (values: seq<Endpoint>)
    reads objects
    ensures |values| == |objects| && forall i :: 0 <= i < |objects| ==> values[i] == objects[i].Now()
  {
    if objects == [] then [] else Values(objects[..|objects| - 1]) + [objects[|objects| - 1].Now()]
  }

  ghost predicate Indexed(working: seq<WorkingEndpoint>, byId: map<Id, WorkingEndpoint>) {
    && (forall i :: 0 <= i < |working| ==> working[i].endpoint.id in byId && byId[working[i].endpoint.id] == working[i])
    && (forall id :: id in byId ==> byId[id] in working && byId[id].endpoint.id == id)
  }

  /** The shared objects with the availability filter, decided once for the whole pass. */
  function AvailableOnly(working: seq<WorkingEndpoint>): seq<WorkingEndpoint> {
    if working == [] then []
    else
      var last := working[|working| - 1];
      AvailableOnly(working[..|working| - 1]) + if Available(last.endpoint) then [last] else []
  }

  function SuitableOnly(b: Binding, objects: seq<WorkingEndpoint>): seq<WorkingEndpoint> {
    if objects == [] then []
    else
      var last := objects[|objects| - 1];
      SuitableOnly(b, objects[..|objects| - 1]) + if Suits(b, last.endpoint) then [last] else []
  }

  function HealthyForBinding(b: Binding, healthy: seq<WorkingEndpoint>,
      working: seq<WorkingEndpoint>): seq<WorkingEndpoint> {
    SuitableOnly(b, if b.states.None? then healthy else working)
  }

  lemma {:induction false} AvailableThenSuitable(b: Binding, working: seq<WorkingEndpoint>)
    requires b.states.None?
    ensures SuitableOnly(b, AvailableOnly(working)) == SuitableOnly(b, working)
  {
    if working != [] {
      var n := |working| - 1;
      AvailableThenSuitable(b, working[..n]);
      var kept := AvailableOnly(working[..n]);
      if Available(working[n].endpoint) {
        assert (kept + [working[n]])[..|kept|] == kept;
      } else {
        assert kept + [] == kept;
        assert SuitableOnly(b, working[..n]) + [] == SuitableOnly(b, working[..n]);
      }
    }
  }

  lemma {:induction false} SuitableAreCandidates(b: Binding, working: seq<WorkingEndpoint>)
    ensures Values(SuitableOnly(b, working)) == Candidates(b, Values(working))
    ensures forall x :: x in SuitableOnly(b, working) ==> x in working
  {
    if working != [] {
      var n := |working| - 1;
      SuitableAreCandidates(b, working[..n]);
      assert Values(working)[..n] == Values(working[..n]);
      var kept := SuitableOnly(b, working[..n]);
      if Suits(b, working[n].endpoint) {
        assert (kept + [working[n]])[..|kept|] == kept;
      }
    }
  }

  method TakeOne(id: Id, working: seq<WorkingEndpoint>, byId: map<Id, WorkingEndpoint>)
    requires Indexed(working, byId)
    modifies working
    ensures Values(working) == TakeOff(old(Values(working)), id)
  {
    if id in byId {
      var current := byId[id];
      current.activeBindingCount := Floor0(current.activeBindingCount - 1);
    }
  }

  method PutOne(id: Id, working: seq<WorkingEndpoint>, byId: map<Id, WorkingEndpoint>)
    requires Indexed(working, byId)
    modifies working
    ensures Values(working) == PutOn(old(Values(working)), id)
  {
    if id in byId {
      var current := byId[id];
      current.activeBindingCount := current.activeBindingCount + 1;
    }
  }

  method TakeOffCurrent(b: Binding, working: seq<WorkingEndpoint>, byId: map<Id, WorkingEndpoint>)
    requires Indexed(working, byId)
    modifies working
    ensures Values(working) == TakeOffAll(old(Values(working)), b.current)
  {
    hide TakeOff, PutOn, Values, Indexed;
    for i := 0 to |b.current|
      invariant Values(working) == TakeOffAll(old(Values(working)), b.current[..i])
    {
      assert b.current[..i + 1][..i] == b.current[..i];
      TakeOne(b.current[i], working, byId);
    }
    assert b.current[..|b.current|] == b.current;
  }

  method PutBackCurrent(b: Binding, working: seq<WorkingEndpoint>, byId: map<Id, WorkingEndpoint>)
    requires Indexed(working, byId)
    modifies working
    ensures Values(working) == PutOnAll(old(Values(working)), b.current)
  {
    hide TakeOff, PutOn, Values, Indexed;
    for i := 0 to |b.current|
      invariant Values(working) == PutOnAll(old(Values(working)), b.current[..i])
    {
      assert b.current[..i + 1][..i] == b.current[..i];
      PutOne(b.current[i], working, byId);
    }
    assert b.current[..|b.current|] == b.current;
  }

  method TakeTurn(
    c: Context, b: Binding, working: seq<WorkingEndpoint>, healthy: seq<WorkingEndpoint>,
        byId: map<Id, WorkingEndpoint>,
    cursors: map<CursorKey, Id>, decisions: seq<Decision>, noHealthyEndpoints: bool)
    returns (cursors': map<CursorKey, Id>, decisions': seq<Decision>, noHealthyEndpoints': bool)
    requires Indexed(working, byId) && healthy == AvailableOnly(working)
    modifies working
    ensures Walk(Values(working), cursors', decisions', noHealthyEndpoints') ==
            Turn(c, b, old(Walk(Values(working), cursors, decisions, noHealthyEndpoints)))
  {
    hide Choice, ShouldSelect, CurrentHealthy, Candidates, SuitableOnly, AvailableOnly, TakeOffAll, PutOnAll, PutOn,
      KeyOf, Values;
    cursors', decisions', noHealthyEndpoints' := cursors, decisions, noHealthyEndpoints;
    var bindingHealthy := HealthyForBinding(b, healthy, working);
    if b.states.None? {
      AvailableThenSuitable(b, working);
    }
    assert bindingHealthy == SuitableOnly(b, working);
    SuitableAreCandidates(b, working);
    var key := KeyOf(b, Values(bindingHealthy));
    var currentHealthy := CurrentHealthy(b, Values(bindingHealthy));
    var recovers := RecoversOriginal(c, b, Values(bindingHealthy));
    if !ShouldSelect(c, b, Values(bindingHealthy)) {
      return;
    }
    TakeOffCurrent(b, working, byId);
    SuitableAreCandidates(b, working);
    var cursor := if key in cursors then Some(cursors[key]) else c.cursor;
    var selected := Choice(c, b, Values(bindingHealthy), recovers, currentHealthy, cursor);
    if selected.None? {
      PutBackCurrent(b, working, byId);
      noHealthyEndpoints' := true;
      decisions' := decisions + [Decision(b.id, b.current, b.current, NoHealthyEndpoint)];
      return;
    }
    var e := selected.value;
    if c.mode.RoundRobin? {
      cursors' := cursors[key := e.id];
    }
    PutOne(e.id, working, byId);
    var forced := c.trigger.Repair? || c.trigger.Configuration?;
    if !forced && b.current == [e.id] {
      return;
    }
    var reason := if recovers then ForRecovery else if forced || c.trigger.Rebalance? then ForRebalance else ForFailure;
    decisions' := decisions + [Decision(b.id, b.current, [e.id], reason)];
  }

  method CopyEndpoints(endpoints: seq<Endpoint>) returns (working: seq<WorkingEndpoint>, byId: map<Id, WorkingEndpoint>)
    requires DistinctEndpoints(endpoints)
    ensures Indexed(working, byId) && Values(working) == endpoints && fresh(working)
  {
    working, byId := [], map[];
    for i := 0 to |endpoints|
      invariant |working| == i && fresh(working)
      invariant forall j :: 0 <= j < i ==> working[j].Now() == endpoints[j] && working[j].endpoint == endpoints[j]
      invariant Indexed(working, byId)
      invariant forall id :: id in byId ==> exists j :: 0 <= j < i && endpoints[j].id == id
    {
      var copy := new WorkingEndpoint(endpoints[i]);
      working, byId := working + [copy], byId[endpoints[i].id := copy];
    }
  }

  /** One evaluation. Endpoint ids are primary keys, so they are distinct. */
  method EvaluateStrategy(c: Context) returns (outcome: Outcome)
    requires DistinctEndpoints(c.endpoints)
    ensures outcome == Evaluation(c)
  {
    hide Turn, Values, AvailableOnly, Indexed;
    var working, byId := CopyEndpoints(c.endpoints);
    var healthy := AvailableOnly(working);
    var decisions, cursors, noHealthyEndpoints := [], c.cursors, false;
    for i := 0 to |c.bindings|
      invariant Walk(Values(working), cursors, decisions, noHealthyEndpoints) == WalkTo(c, i)
    {
      cursors, decisions, noHealthyEndpoints :=
        TakeTurn(c, c.bindings[i], working, healthy, byId, cursors, decisions, noHealthyEndpoints);
    }
    return Outcome(decisions, if c.mode.RoundRobin? then Some(cursors) else None, noHealthyEndpoints);
  }
}
