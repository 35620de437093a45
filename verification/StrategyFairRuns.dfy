/** When round robin is fair: exactly under settings that leave every choice to the cursor and
    rank the endpoints in one cyclic order. */
module StrategyFairRuns {
  import opened Wrappers
  import opened Strategy
  import opened StrategyBalance
  import opened StrategyFairness

  /** What a caller settles before an evaluation; an id without a priority has priority 0. */
  datatype Setting = Setting(trigger: Trigger, recovery: RecoveryMode, priorities: map<Id, int>)

  function Priority(s: Setting, id: Id): int {
    if id in s.priorities then s.priorities[id] else 0
  }

  /** The two branches that choose without the cursor. */
  predicate Bypasses(s: Setting) {
    s.trigger.Repair? || (s.trigger.Recovery? && (s.recovery.Automatic? || s.recovery.Delayed?))
  }

  predicate Fits(c: Context, s: Setting) {
    && c.trigger == s.trigger && c.recovery == s.recovery && DistinctEndpoints(c.endpoints)
    && forall i :: 0 <= i < |c.endpoints| ==> c.endpoints[i].priority == Priority(s, c.endpoints[i].id)
  }

  /** Each evaluation of the run has one of the settings; bindings, health and candidates may vary. */
  ghost predicate Under(run: seq<Context>, settings: iset<Setting>) {
    forall i :: 0 <= i < |run| ==> exists s :: s in settings && Fits(run[i], s)
  }

  /** Any consecutive selections under one cursor key, across evaluations, are shared fairly. */
  ghost predicate FairRun(run: seq<Context>) {
    forall key, from, to, id ::
      0 <= from <= to <= |OfKey(Log(run), key)| && id in key.ids ==>
        FairShare(OfKey(Log(run), key)[from..to], |key.ids|, id)
  }

  /** What a caller can send: distinct ids, and loads that count the bindings. */
  predicate Sendable(run: seq<Context>) {
    forall i :: 0 <= i < |run| ==> ConsistentInput(run[i])
  }

  ghost predicate AlwaysFair(settings: iset<Setting>) {
    forall run :: run != [] && Threaded(run) && Under(run, settings) && Sendable(run) ==> FairRun(run)
  }

  // ---------------------------------------------------------------- rank orders

  predicate Ahead(s: Setting, x: Id, y: Id) {
    Priority(s, x) < Priority(s, y) || (Priority(s, x) == Priority(s, y) && x < y)
  }

  /** Going round the ranking from `x`, `y` comes before `z`. */
  predicate Cycle(s: Setting, x: Id, y: Id, z: Id) {
    || (Ahead(s, x, y) && Ahead(s, y, z))
    || (Ahead(s, y, z) && Ahead(s, z, x))
    || (Ahead(s, z, x) && Ahead(s, x, y))
  }

  /** Both settings rank any three endpoints in the same cyclic order. */
  ghost predicate SameCycles(s: Setting, t: Setting) {
    forall x, y, z :: Cycle(s, x, y, z) ==> Cycle(t, x, y, z)
  }

  lemma CyclesTurn(s: Setting, x: Id, y: Id, z: Id)
    requires x != y && y != z && x != z
    ensures Cycle(s, x, y, z) <==> Cycle(s, y, z, x)
    ensures Cycle(s, x, y, z) <==> !Cycle(s, x, z, y)
  {
  }

  /** A ring in the order of the setting, over exactly these ids. */
  predicate RingOf(ring: seq<Id>, ids: set<Id>, s: Setting) {
    && (forall i, j :: 0 <= i < j < |ring| ==> Ahead(s, ring[i], ring[j]))
    && (forall i :: 0 <= i < |ring| ==> ring[i] in ids)
    && (forall id :: id in ids ==> id in ring)
  }

  lemma RingIsDistinct(ring: seq<Id>, ids: set<Id>, s: Setting)
    requires RingOf(ring, ids, s)
    ensures DistinctIds(ring)
  {
  }

  lemma {:induction false} RingSize(ring: seq<Id>, ids: set<Id>)
    requires DistinctIds(ring) && (forall i :: 0 <= i < |ring| ==> ring[i] in ids) && forall id :: id in ids ==>
        id in ring
    ensures |ring| == |ids|
  {
    if ring == [] {
      assert ids == {};
    } else {
      var front, last := ring[..|ring| - 1], ring[|ring| - 1];
      forall id | id in ids - {last} ensures id in front {
        var i :| 0 <= i < |ring| && ring[i] == id;
        assert front[i] == id;
      }
      RingSize(front, ids - {last});
    }
  }

  function Successor(ring: seq<Id>, x: Id): Id
    requires x in ring
  {
    PositionFinds(ring, x);
    ring[(Position(ring, x) + 1) % |ring|]
  }

  lemma SuccessorAt(ring: seq<Id>, x: Id) returns (a: nat)
    requires x in ring && DistinctIds(ring)
    ensures a < |ring| && ring[a] == x && Successor(ring, x) == if a + 1 < |ring| then ring[a + 1] else ring[0]
  {
    PositionFinds(ring, x);
    a := Position(ring, x);
    SmallRemainder(a + 1, |ring|);
  }

  /** Everything else on the ring comes after the successor. */
  lemma SuccessorIsNext(ring: seq<Id>, ids: set<Id>, s: Setting, x: Id, z: Id)
    requires RingOf(ring, ids, s) && x in ring && z in ring && z != x && z != Successor(ring, x)
    ensures Successor(ring, x) != x && Successor(ring, x) in ring && Cycle(s, x, Successor(ring, x), z)
  {
    hide Ahead, Successor;
    RingIsDistinct(ring, ids, s);
    var a := SuccessorAt(ring, x);
    var b :| 0 <= b < |ring| && ring[b] == z;
    assert a != b;
    if a + 1 < |ring| {
      assert Ahead(s, ring[a], ring[a + 1]);
      if b < a {
        assert Ahead(s, ring[b], ring[a]);
      } else {
        assert Ahead(s, ring[a + 1], ring[b]);
      }
      AheadIsStrict(s, ring[a], ring[a + 1]);
    } else {
      assert 0 < b < a;
      assert Ahead(s, ring[0], ring[b]) && Ahead(s, ring[b], ring[a]) && Ahead(s, ring[0], ring[a]);
      AheadIsStrict(s, ring[0], ring[a]);
    }
  }

  lemma AheadIsStrict(s: Setting, x: Id, y: Id)
    ensures Ahead(s, x, y) ==> x != y
  {
  }

  lemma SuccessorIsMember(ring: seq<Id>, x: Id)
    requires x in ring && DistinctIds(ring)
    ensures Successor(ring, x) in ring && (Successor(ring, x) == x ==> forall u :: u in ring ==> u == x)
  {
    hide Successor;
    var a := SuccessorAt(ring, x);
  }

  /** Rankings with the same cycles have the same successors. */
  lemma SuccessorsAgree(a: seq<Id>, b: seq<Id>, ids: set<Id>, s: Setting, t: Setting, x: Id)
    requires RingOf(a, ids, s) && RingOf(b, ids, t) && SameCycles(s, t) && x in ids
    ensures x in a && x in b && Successor(a, x) == Successor(b, x)
  {
    hide Ahead, Cycle, Successor;
    RingIsDistinct(a, ids, s);
    RingIsDistinct(b, ids, t);
    SuccessorIsMember(a, x);
    SuccessorIsMember(b, x);
    var y, z := Successor(a, x), Successor(b, x);
    if y != z && y != x && z != x {
      SuccessorIsNext(a, ids, s, x, z);
      SuccessorIsNext(b, ids, t, x, y);
      CyclesTurn(t, x, y, z);
    }
  }

  // ---------------------------------------------------------------- what a pick is made of

  lemma {:induction false} TakeOffKeeps(working: seq<Endpoint>, ids: seq<Id>)
    ensures SameEndpoints(TakeOffAll(working, ids), working)
  {
    if ids != [] {
      TakeOffKeeps(working, ids[..|ids| - 1]);
    }
  }

  lemma TurnKeepsEndpoints(c: Context, b: Binding, w: Walk)
    ensures SameEndpoints(Turn(c, b, w).working, w.working)
  {
    hide Choice, ShouldSelect, Candidates;
    TakeOffKeeps(w.working, b.current);
    PutOnAllLoads(TakeOffAll(w.working, b.current), b.current);
  }

  lemma {:induction false} WalkKeepsEndpoints(c: Context, n: nat)
    requires n <= |c.bindings|
    ensures SameEndpoints(WalkTo(c, n).working, c.endpoints)
  {
    if n > 0 {
      hide Turn;
      WalkKeepsEndpoints(c, n - 1);
      TurnKeepsEndpoints(c, c.bindings[n - 1], WalkTo(c, n - 1));
    }
  }

  lemma {:induction false} CandidatesAreDistinct(b: Binding, working: seq<Endpoint>)
    requires DistinctEndpoints(working)
    ensures DistinctEndpoints(Candidates(b, working))
  {
    if working != [] {
      var front := working[..|working| - 1];
      CandidatesAreDistinct(b, front);
      CandidatesAreSuited(b, front);
      forall i | 0 <= i < |Candidates(b, front)| ensures Candidates(b, front)[i].id != working[|working| - 1].id {
        assert Candidates(b, front)[i] in Candidates(b, front);
      }
    }
  }

  lemma SortedIsRing(ranked: seq<Endpoint>, ids: set<Id>, s: Setting)
    requires Sorted(ranked) && DistinctEndpoints(ranked) && Ids(ranked) == ids
    requires forall i :: 0 <= i < |ranked| ==> ranked[i].priority == Priority(s, ranked[i].id)
    ensures RingOf(RankedIds(ranked), ids, s)
  {
    hide Priority;
    var ring := RankedIds(ranked);
    forall i, j | 0 <= i < j < |ring| ensures Ahead(s, ring[i], ring[j]) {
      assert Before(ranked[i], ranked[j]) && ranked[i].id != ranked[j].id;
    }
    forall id | id in ids ensures id in ring {
      var i :| 0 <= i < |ranked| && ranked[i].id == id;
      assert ring[i] == id;
    }
  }

  lemma SameIds(a: seq<Endpoint>, b: seq<Endpoint>)
    requires forall e :: e in a <==> e in b
    ensures Ids(a) == Ids(b)
  {
    forall id | id in Ids(a) ensures id in Ids(b) {
      var i :| 0 <= i < |a| && a[i].id == id;
      assert a[i] in b;
    }
    forall id | id in Ids(b) ensures id in Ids(a) {
      var i :| 0 <= i < |b| && b[i].id == id;
      assert b[i] in a;
    }
  }

  /** Ranking distinct candidates gives their ring. */
  lemma {:induction false} RankedIsRing(candidates: seq<Endpoint>, s: Setting)
    requires DistinctEndpoints(candidates)
    requires forall i :: 0 <= i < |candidates| ==> candidates[i].priority == Priority(s, candidates[i].id)
    ensures RingOf(RankedIds(Ranked(candidates)), Ids(candidates), s)
  {
    hide Ranked, Sorted, DistinctEndpoints, Ids, Priority, RingOf, RankedIds, Before;
    var ranked := Ranked(candidates);
    RankedIsPermutation(candidates);
    SameElements(ranked, candidates);
    SameIds(ranked, candidates);
    RankedAreDistinct(candidates);
    forall i | 0 <= i < |ranked| ensures ranked[i].priority == Priority(s, ranked[i].id) {
      assert ranked[i] in ranked;
    }
    SortedIsRing(ranked, Ids(candidates), s);
  }

  lemma {:induction false} InsertKeepsDistinct(e: Endpoint, sorted: seq<Endpoint>)
    requires DistinctEndpoints(sorted) && Sorted(sorted) && forall i :: 0 <= i < |sorted| ==> sorted[i].id != e.id
    ensures DistinctEndpoints(Insert(e, sorted))
  {
    if sorted != [] && !Before(e, sorted[0]) {
      var rest := sorted[1..];
      InsertKeepsDistinct(e, rest);
      InsertSorts(e, rest);
      forall i | 0 <= i < |Insert(e, rest)| ensures Insert(e, rest)[i].id != sorted[0].id {
        assert Insert(e, rest)[i] in Insert(e, rest);
      }
    }
  }

  lemma {:induction false} RankedAreDistinct(candidates: seq<Endpoint>)
    requires DistinctEndpoints(candidates)
    ensures DistinctEndpoints(Ranked(candidates))
  {
    if candidates != [] {
      var rest := Ranked(candidates[1..]);
      RankedAreDistinct(candidates[1..]);
      RankedIsPermutation(candidates[1..]);
      SameElements(rest, candidates[1..]);
      forall i | 0 <= i < |rest| ensures rest[i].id != candidates[0].id {
        assert rest[i] in rest;
      }
      InsertKeepsDistinct(candidates[0], rest);
    }
  }

  /** A pick chose from the ring of its key's ids, in the order of the setting. */
  predicate RingPick(p: Pick, s: Setting) {
    RingOf(p.ring, p.key.ids, s) && p.chosen in p.key.ids
  }

  lemma PickIsOnRing(c: Context, b: Binding, w: Walk, s: Setting)
    requires c.mode.RoundRobin? && Fits(c, s) && SameEndpoints(w.working, c.endpoints) && PickOf(c, b, w) != []
    ensures RingPick(PickOf(c, b, w)[0], s) && (!Bypasses(s) ==> PickOf(c, b, w)[0].byCursor)
  {
    PickFacts(c, b, w);
    var released := TakeOffAll(w.working, b.current);
    TakeOffKeeps(w.working, b.current);
    CandidateIdsIgnoreLoads(b, released, w.working);
    CandidatesAreDistinct(b, released);
    CandidatesAreSuited(b, released);
    var now := Candidates(b, released);
    forall i | 0 <= i < |now| ensures now[i].priority == Priority(s, now[i].id) {
      assert now[i] in now;
    }
    RankedIsRing(now, s);
    hide Candidates, TakeOffAll, Ranked, RankedIds, Choice, ShouldSelect, RingOf, Ids;
    OnRing(PickOf(c, b, w)[0], s);
  }

  lemma OnRing(p: Pick, s: Setting)
    requires RingOf(p.ring, p.key.ids, s) && p.chosen in p.ring
    ensures p.chosen in p.key.ids
  {
  }

  /** A pick the cursor made on a ring of one of the settings. */
  ghost predicate KnownPick(p: Pick, settings: iset<Setting>) {
    p.byCursor && exists s :: s in settings && RingPick(p, s)
  }

  ghost predicate Known(picks: seq<Pick>, settings: iset<Setting>) {
    forall i :: 0 <= i < |picks| ==> KnownPick(picks[i], settings)
  }

  lemma OnePick(c: Context, b: Binding, w: Walk)
    ensures |PickOf(c, b, w)| <= 1
  {
    hide Candidates, TakeOffAll, Ranked, RankedIds, Choice, ShouldSelect, RecoversOriginal, CurrentHealthy;
  }

  lemma {:induction false} PicksAreKnown(c: Context, n: nat, s: Setting, settings: iset<Setting>)
    requires c.mode.RoundRobin? && Fits(c, s) && s in settings && !Bypasses(s) && n <= |c.bindings|
    ensures Known(Picks(c, n), settings)
  {
    hide PickOf, RingPick, Fits, Bypasses, WalkTo, SameEndpoints, Turn;
    if n > 0 {
      PicksAreKnown(c, n - 1, s, settings);
      var b, w := c.bindings[n - 1], WalkTo(c, n - 1);
      WalkKeepsEndpoints(c, n - 1);
      OnePick(c, b, w);
      if PickOf(c, b, w) != [] {
        PickIsOnRing(c, b, w, s);
      }
    }
  }

  lemma {:induction false} LogIsKnown(run: seq<Context>, settings: iset<Setting>)
    requires Under(run, settings) && (forall i :: 0 <= i < |run| ==> run[i].mode.RoundRobin?)
    requires forall s :: s in settings ==> !Bypasses(s)
    ensures Known(Log(run), settings)
  {
    hide RingPick, Fits, Bypasses, Picks;
    if run != [] {
      var last := run[|run| - 1];
      LogIsKnown(run[..|run| - 1], settings);
      var s :| s in settings && Fits(last, s);
      PicksAreKnown(last, |last.bindings|, s, settings);
    }
  }

  lemma {:induction false} OfKeyIsKnown(picks: seq<Pick>, key: CursorKey, settings: iset<Setting>)
    requires Known(picks, settings)
    ensures Known(OfKey(picks, key), settings)
    ensures forall i :: 0 <= i < |OfKey(picks, key)| ==> OfKey(picks, key)[i].key == key
  {
    hide KnownPick;
    if picks != [] {
      OfKeyIsKnown(picks[..|picks| - 1], key, settings);
    }
  }

  // ---------------------------------------------------------------- fairness

  /** The settings leave every choice to the cursor and agree on the cyclic order. */
  ghost predicate CursorDecides(settings: iset<Setting>) {
    && (forall s :: s in settings ==> !Bypasses(s))
    && forall s, t :: s in settings && t in settings ==> SameCycles(s, t)
  }

  function Flat(picks: seq<Pick>, ring: seq<Id>): (f: seq<Pick>)
    ensures |f| == |picks|
    ensures forall i :: 0 <= i < |picks| ==> f[i] == picks[i].(ring := ring)
  {
    if picks == [] then [] else Flat(picks[..|picks| - 1], ring) + [picks[|picks| - 1].(ring := ring)]
  }

  lemma {:induction false} FlatCounts(picks: seq<Pick>, ring: seq<Id>, id: Id)
    ensures Chosen(Flat(picks, ring), id) == Chosen(picks, id)
  {
    if picks != [] {
      FlatCounts(picks[..|picks| - 1], ring, id);
      assert Flat(picks, ring)[..|picks| - 1] == Flat(picks[..|picks| - 1], ring);
    }
  }

  /** Whatever ring it was made on, a following pick follows on the given ring too. */
  lemma FollowsOnRing(p: Pick, q: Pick, ring: seq<Id>, s: Setting, t: Setting)
    requires Follows(p, q) && RingPick(q, t) && RingOf(ring, q.key.ids, s) && SameCycles(s, t) && p.chosen in q.key.ids
    ensures Follows(p.(ring := ring), q.(ring := ring))
  {
    hide RingOf, SameCycles;
    SuccessorsAgree(ring, q.ring, q.key.ids, s, t, p.chosen);
  }

  /** Seen on the first pick's ring, every later pick is still the successor of the one before. */
  lemma {:induction false} FlatIsSteady(picks: seq<Pick>, key: CursorKey, settings: iset<Setting>)
    requires picks != [] && Known(picks, settings) && Chained(picks) && CursorDecides(settings)
    requires forall i :: 0 <= i < |picks| ==> picks[i].key == key
    ensures var ring := picks[0].ring;
            SteadyPicks(Flat(picks, ring), ring) && Chained(Flat(picks, ring)) && |ring| == |key.ids|
    ensures forall id :: id in key.ids ==> id in picks[0].ring
  {
    hide SameCycles, RingOf, Bypasses, Follows, RingPick;
    var ring, flat := picks[0].ring, Flat(picks, picks[0].ring);
    assert KnownPick(picks[0], settings);
    var s :| s in settings && RingPick(picks[0], s);
    RingPickFacts(picks[0], s);
    RingFacts(ring, key.ids, s);
    hide Flat;
    forall i | 0 < i < |flat| ensures Follows(flat[i - 1], flat[i]) {
      assert KnownPick(picks[i], settings) && KnownPick(picks[i - 1], settings);
      var t :| t in settings && RingPick(picks[i], t);
      var u :| u in settings && RingPick(picks[i - 1], u);
      RingPickFacts(picks[i - 1], u);
      FollowsOnRing(picks[i - 1], picks[i], ring, s, t);
    }
  }

  lemma RingPickFacts(p: Pick, s: Setting)
    requires RingPick(p, s)
    ensures RingOf(p.ring, p.key.ids, s) && p.chosen in p.key.ids
  {
  }

  lemma RingFacts(ring: seq<Id>, ids: set<Id>, s: Setting)
    requires RingOf(ring, ids, s)
    ensures DistinctIds(ring) && |ring| == |ids| && forall id :: id in ids ==> id in ring
  {
    RingIsDistinct(ring, ids, s);
    RingSize(ring, ids);
  }

  /** Over any `k` consecutive selections that share one cursor key, hence one candidate set of
      size `n`, across any number of evaluations, each candidate is chosen floor(k/n) or ceil(k/n)
      times, as long as the settings leave the choice to the cursor and keep the cyclic order;
      unchanged priorities do. */
  lemma {:induction false} RoundRobinIsFair(run: seq<Context>, settings: iset<Setting>, key: CursorKey, from: nat,
      to: nat, id: Id)
    requires run != [] && Threaded(run) && Under(run, settings) && CursorDecides(settings)
    requires from <= to <= |OfKey(Log(run), key)| && id in key.ids
    ensures FairShare(OfKey(Log(run), key)[from..to], |key.ids|, id)
  {
    hide Log, OfKey, Chained, Flat, RingPick, Follows, Bypasses, SameCycles, Under;
    var all := OfKey(Log(run), key);
    LogStaysGood(run, key);
    LogIsKnown(run, settings);
    OfKeyIsKnown(Log(run), key, settings);
    StretchIsChained(all, from, to);
    var picks := all[from..to];
    if picks != [] {
      FlatIsSteady(picks, key, settings);
      SteadyIsFair(Flat(picks, picks[0].ring), picks[0].ring, id);
      FlatCounts(picks, picks[0].ring, id);
    }
  }

  // ---------------------------------------------------------------- when it is not fair

  function Up(id: Id, s: Setting, load: int): Endpoint {
    Endpoint(id, Priority(s, id), true, Healthy, {}, load)
  }

  /** A context whose only endpoints are healthy, suit every binding here and count the bindings. */
  function Site(s: Setting, ids: seq<Id>, bindings: seq<Binding>, cursors: map<CursorKey, Id>): Context {
    Context(s.trigger, RoundRobin, s.recovery,
            seq(|ids|, i requires 0 <= i < |ids| => Up(ids[i], s, Recount(bindings, [], ids[i]))),
            bindings, None, cursors)
  }

  lemma SiteIsConsistent(s: Setting, ids: seq<Id>, c: Context)
    requires c == Site(s, ids, c.bindings, c.cursors) && DistinctIds(ids) && DistinctBindings(c.bindings)
    ensures ConsistentInput(c) && Fits(c, s)
  {
    hide Recount;
  }

  lemma {:induction false} AllSuit(b: Binding, working: seq<Endpoint>)
    requires forall i :: 0 <= i < |working| ==> Suits(b, working[i])
    ensures Candidates(b, working) == working
  {
    if working != [] {
      AllSuit(b, working[..|working| - 1]);
    }
  }

  predicate Open(b: Binding) {
    b.family.None? && b.states.None?
  }

  function KeyFor(ids: seq<Id>): CursorKey {
    CursorKey(None, set i | 0 <= i < |ids| :: ids[i])
  }

  lemma {:induction false} SiteSuits(s: Setting, ids: seq<Id>, b: Binding, working: seq<Endpoint>)
    requires Open(b) && SameEndpoints(working, Site(s, ids, [], map[]).endpoints)
    ensures Candidates(b, working) == working && Ids(working) == KeyFor(ids).ids
  {
    hide Candidates;
    assert forall i :: 0 <= i < |ids| ==> working[i].id == ids[i] && Suits(b, working[i]);
    AllSuit(b, working);
    forall id | id in KeyFor(ids).ids ensures id in Ids(working) {
      var i :| 0 <= i < |ids| && ids[i] == id;
      assert working[i].id == id;
    }
  }

  lemma SitesAreSame(s: Setting, ids: seq<Id>, c: Context)
    requires c == Site(s, ids, c.bindings, c.cursors)
    ensures SameEndpoints(c.endpoints, Site(s, ids, [], map[]).endpoints)
  {
    hide Recount;
  }

  lemma SameIsTransitive(a: seq<Endpoint>, b: seq<Endpoint>, c: seq<Endpoint>)
    requires SameEndpoints(a, b) && SameEndpoints(b, c)
    ensures SameEndpoints(a, c)
  {
  }

  /** The candidates of an open binding at a site are its endpoints, whatever the loads. */
  lemma {:induction false} SiteCandidates(s: Setting, ids: seq<Id>, b: Binding, c: Context, working: seq<Endpoint>)
    requires Open(b) && c == Site(s, ids, c.bindings, c.cursors) && SameEndpoints(working, c.endpoints)
    ensures Candidates(b, working) == working && KeyOf(b, working) == KeyFor(ids)
    ensures Candidates(b, TakeOffAll(working, b.current)) == TakeOffAll(working, b.current)
    ensures Ids(TakeOffAll(working, b.current)) == Ids(working) == KeyFor(ids).ids
  {
    hide Candidates, TakeOffAll, SameEndpoints, Ids, Suits;
    TakeOffKeeps(working, b.current);
    SitesAreSame(s, ids, c);
    SameIsTransitive(working, c.endpoints, Site(s, ids, [], map[]).endpoints);
    SameIsTransitive(TakeOffAll(working, b.current), working, Site(s, ids, [], map[]).endpoints);
    SiteSuits(s, ids, b, working);
    SiteSuits(s, ids, b, TakeOffAll(working, b.current));
  }

  /** Bypassing bindings all return to endpoint 0. */
  function Returning(s: Setting, id: Id): Binding {
    Binding(id, if s.trigger.Repair? then [0] else [1], Some(0), None, None, 0)
  }

  /** A binding whose endpoint is chosen without the cursor is one pick of it. */
  lemma {:induction false} PickOfChosen(c: Context, b: Binding, w: Walk, e: Endpoint)
    requires var candidates := Candidates(b, w.working);
             var recovers, healthy := RecoversOriginal(c, b, candidates), CurrentHealthy(b, candidates);
             && ShouldSelect(c, b, candidates) && (recovers || (c.trigger.Repair? && healthy))
             && Some(e) == (if recovers then Find(Candidates(b, TakeOffAll(w.working, b.current)), b.original.value)
                            else FirstOf(b.current, Candidates(b, TakeOffAll(w.working, b.current))))
    ensures var picks := PickOf(c, b, w);
            |picks| == 1 && picks[0].key == KeyOf(b, Candidates(b, w.working)) && picks[0].chosen == e.id
  {
    hide Candidates, TakeOffAll, Ranked, RankedIds, ShouldSelect, RecoversOriginal, CurrentHealthy, Find, FirstOf,
      Select;
  }

  lemma {:induction false} RecoveryPicksZero(c: Context, w: Walk, b: Binding)
    requires c.trigger.Recovery? && (c.recovery.Automatic? || c.recovery.Delayed?)
    requires b.original == Some(0) && b.current == [1] && Candidates(b, w.working) == w.working && 0 in Ids(w.working)
    requires var now := TakeOffAll(w.working, b.current); Candidates(b, now) == now && 0 in Ids(now)
    ensures var picks := PickOf(c, b, w); |picks| == 1 && picks[0].key == KeyOf(b, w.working) && picks[0].chosen == 0
  {
    hide PickOf, Candidates, TakeOffAll, Ids, IndexOf, CurrentHealthy;
    var now := TakeOffAll(w.working, b.current);
    IndexOfFinds(now, 0);
    PickOfChosen(c, b, w, Find(now, 0).value);
  }

  lemma {:induction false} RepairPicksZero(c: Context, w: Walk, b: Binding)
    requires c.trigger.Repair? && b.current == [0] && Candidates(b, w.working) == w.working && 0 in Ids(w.working)
    requires var now := TakeOffAll(w.working, b.current); Candidates(b, now) == now && 0 in Ids(now)
    ensures var picks := PickOf(c, b, w); |picks| == 1 && picks[0].key == KeyOf(b, w.working) && picks[0].chosen == 0
  {
    hide PickOf, Candidates, TakeOffAll, Ids, IndexOf;
    var now := TakeOffAll(w.working, b.current);
    assert b.current[0] in Ids(w.working);
    IndexOfFinds(now, 0);
    PickOfChosen(c, b, w, Find(now, 0).value);
  }

  lemma BypassPicksZero(s: Setting, c: Context, w: Walk, id: Id)
    requires Bypasses(s) && c == Site(s, [0, 1], c.bindings, c.cursors) && SameEndpoints(w.working, c.endpoints)
    ensures var picks := PickOf(c, Returning(s, id), w);
            |picks| == 1 && picks[0].key == KeyFor([0, 1]) && picks[0].chosen == 0
  {
    hide PickOf, Candidates, TakeOffAll, Ids, SameEndpoints, KeyFor, KeyOf;
    var b := Returning(s, id);
    SiteCandidates(s, [0, 1], b, c, w.working);
    ZeroAndOne();
    if s.trigger.Repair? {
      RepairPicksZero(c, w, b);
    } else {
      RecoveryPicksZero(c, w, b);
    }
  }

  lemma TwoReturn(s: Setting)
    ensures DistinctBindings([Returning(s, 0), Returning(s, 1)]) && DistinctIds([0, 1])
  {
  }

  lemma ZeroAndOne()
    ensures KeyFor([0, 1]).ids == {0, 1}
  {
    assert [0, 1][0] == 0 && [0, 1][1] == 1;
  }

  lemma {:induction false} OneKey(picks: seq<Pick>, key: CursorKey)
    requires forall i :: 0 <= i < |picks| ==> picks[i].key == key
    ensures OfKey(picks, key) == picks
  {
    if picks != [] {
      OneKey(picks[..|picks| - 1], key);
    }
  }

  lemma {:induction false} OnlyLog(c: Context)
    ensures Log([c]) == Picks(c, |c.bindings|)
  {
    assert [c][..0] == [];
    assert Log([]) == [];
  }

  lemma {:induction false} CountOne(picks: seq<Pick>, p: Pick, id: Id)
    ensures Chosen(picks + [p], id) == Chosen(picks, id) + if p.chosen == id then 1 else 0
  {
    assert (picks + [p])[..|picks|] == picks;
  }

  /** One evaluation with two bindings that recover the same original, or are repaired on the
      same endpoint, gives it both of two selections among two candidates. */
  lemma BypassIsUnfair(s: Setting) returns (run: seq<Context>)
    requires Bypasses(s)
    ensures |run| == 1 && Threaded(run) && Sendable(run) && Fits(run[0], s) && !FairRun(run)
  {
    hide PickOf, WalkTo, Picks, Bypasses, Log, OfKey, Evaluation, Fits, FairRun, Returning, KeyFor, Chosen;
    var c := Site(s, [0, 1], [Returning(s, 0), Returning(s, 1)], map[]);
    run := [c];
    var picks := TwoZeros(s, c);
    OnlyLog(c);
    OneKey(picks, KeyFor([0, 1]));
    ZeroAndOne();
    TwoReturn(s);
    SiteIsConsistent(s, [0, 1], c);
    Unshared(run, KeyFor([0, 1]), picks, 0);
  }

  /** A whole log of one key that gives an endpoint too much. */
  lemma {:induction false} Unshared(run: seq<Context>, key: CursorKey, picks: seq<Pick>, id: Id)
    requires OfKey(Log(run), key) == picks && id in key.ids && Chosen(picks, id) * |key.ids| >= |picks| + |key.ids|
    ensures !FairRun(run)
  {
    hide Log, OfKey, Chosen;
    assert picks[0..|picks|] == picks;
    assert !FairShare(OfKey(Log(run), key)[0..|picks|], |key.ids|, id);
  }

  lemma {:induction false} TwoZeros(s: Setting, c: Context) returns (picks: seq<Pick>)
    requires Bypasses(s) && c == Site(s, [0, 1], [Returning(s, 0), Returning(s, 1)], map[])
    ensures picks == Picks(c, 2) && |picks| == 2 && Chosen(picks, 0) == 2
    ensures forall i :: 0 <= i < |picks| ==> picks[i].key == KeyFor([0, 1])
  {
    hide PickOf, WalkTo, KeyFor, Bypasses, Returning, Picks, Chosen;
    WalkKeepsEndpoints(c, 0);
    WalkKeepsEndpoints(c, 1);
    BypassPicksZero(s, c, WalkTo(c, 0), 0);
    BypassPicksZero(s, c, WalkTo(c, 1), 1);
    var p, q := PickOf(c, c.bindings[0], WalkTo(c, 0))[0], PickOf(c, c.bindings[1], WalkTo(c, 1))[0];
    TwoPicks(c, p, q);
    picks := [p, q];
    assert [] + [p] == [p] && [p] + [q] == [p, q];
    NothingChosen();
    CountOne([], p, 0);
    CountOne([p], q, 0);
  }

  lemma NothingChosen()
    ensures forall id :: Chosen([], id) == 0
  {
  }

  lemma {:induction false} TwoPicks(c: Context, p: Pick, q: Pick)
    requires |c.bindings| >= 2
    requires PickOf(c, c.bindings[0], WalkTo(c, 0)) == [p] && PickOf(c, c.bindings[1], WalkTo(c, 1)) == [q]
    ensures Picks(c, 2) == [p, q]
  {
    hide PickOf, WalkTo;
    assert Picks(c, 0) == [];
    assert Picks(c, 1) == [] + [p];
    assert Picks(c, 2) == Picks(c, 1) + [q];
  }

  /** A binding with nothing assigned, which takes what the cursor gives. */
  function Unassigned(id: Id): Binding {
    Binding(id, [], None, None, None, 0)
  }

  lemma UnassignedSelects(c: Context, w: Walk, id: Id)
    requires c.mode.RoundRobin? && Candidates(Unassigned(id), w.working) == w.working != []
    requires TakeOffAll(w.working, []) == w.working
    ensures var picks := PickOf(c, Unassigned(id), w);
            |picks| == 1 && picks[0].key == KeyOf(Unassigned(id), w.working) && picks[0].byCursor
  {
    hide Candidates, TakeOffAll, Ranked, RankedIds, Ids, AfterCursor;
    assert !CurrentHealthy(Unassigned(id), w.working);
  }

  /** What the cursor gives at a site, and where it moves. */
  lemma CursorPick(s: Setting, c: Context, ids: seq<Id>, w: Walk, id: Id) returns (p: Pick)
    requires c == Site(s, ids, c.bindings, c.cursors) && SameEndpoints(w.working, c.endpoints) && DistinctIds(ids)
        && ids != []
    ensures PickOf(c, Unassigned(id), w) == [p] && p.key == KeyFor(ids) && RingPick(p, s)
    ensures Turn(c, Unassigned(id), w).cursors == w.cursors[p.key := p.chosen]
    ensures SameEndpoints(Turn(c, Unassigned(id), w).working, c.endpoints)
    ensures p.key in w.cursors && w.cursors[p.key] in p.ring ==> p.chosen == Successor(p.ring, w.cursors[p.key])
  {
    hide PickOf, Turn, Candidates, RingPick, KeyOf, Ids, KeyFor, Position;
    SiteCandidates(s, ids, Unassigned(id), c, w.working);
    UnassignedSelects(c, w, id);
    p := PickOf(c, Unassigned(id), w)[0];
    PickFacts(c, Unassigned(id), w);
    PickIsOnRing(c, Unassigned(id), w, s);
    TurnKeepsEndpoints(c, Unassigned(id), w);
  }

  /** Three endpoints ranked in opposite cycles: one step round each ring leads back. */
  lemma ThereAndBack(s: Setting, t: Setting, x: Id, y: Id, z: Id, a: seq<Id>, b: seq<Id>, from: Id)
    requires Cycle(s, x, y, z) && !Cycle(t, x, y, z) && RingOf(a, {x, y, z}, s) && RingOf(b, {x, y, z}, t)
        && from in {x, y, z}
    ensures from in a && Successor(a, from) in b && Successor(b, Successor(a, from)) == from
  {
    CycleIsDistinct(s, x, y, z);
    CyclesTurn(s, x, y, z);
    CyclesTurn(s, y, z, x);
    CyclesTurn(t, x, y, z);
    CyclesTurn(t, y, z, x);
    CyclesTurn(t, z, x, y);
    CyclesTurn(s, z, x, y);
    RingIsDistinct(a, {x, y, z}, s);
    RingIsDistinct(b, {x, y, z}, t);
    hide Cycle, Ahead, Successor;
    SuccessorIsMember(a, from);
    assert x in a && y in a && z in a;
    var next := Successor(a, from);
    SuccessorIsMember(b, next);
    assert x in b && y in b && z in b;
    var last := Successor(b, next);
    if last != from {
      SuccessorIsNext(a, {x, y, z}, s, from, last);
      SuccessorIsNext(b, {x, y, z}, t, next, from);
    }
  }

  lemma CycleIsDistinct(s: Setting, x: Id, y: Id, z: Id)
    requires Cycle(s, x, y, z)
    ensures x != y && y != z && x != z
  {
  }

  /** Two evaluations that rank three endpoints in opposite cycles give one of them two of three
      selections. */
  lemma ReorderIsUnfair(s: Setting, t: Setting, x: Id, y: Id, z: Id) returns (run: seq<Context>)
    requires Cycle(s, x, y, z) && !Cycle(t, x, y, z)
    ensures |run| == 2 && Threaded(run) && Sendable(run) && Fits(run[0], s) && Fits(run[1], t) && !FairRun(run)
  {
    hide Cycle, Ahead, Turn, PickOf, Successor, KeyFor, SameEndpoints, RingOf, Fits;
    var ids, key := [x, y, z], KeyFor([x, y, z]);
    CycleIsDistinct(s, x, y, z);
    ThreeIds(x, y, z);
    var c := Site(s, ids, [Unassigned(0), Unassigned(1)], map[]);
    WalkKeepsEndpoints(c, 0);
    var p := CursorPick(s, c, ids, WalkTo(c, 0), 0);
    WalkKeepsEndpoints(c, 1);
    assert WalkTo(c, 1).cursors == map[][key := p.chosen];
    RingPickFacts(p, s);
    var q := CursorPick(s, c, ids, WalkTo(c, 1), 1);
    RingPickFacts(q, s);
    assert WalkTo(c, 2).cursors == WalkTo(c, 1).cursors[key := q.chosen];
    var d := Site(t, ids, [Unassigned(2)], WalkTo(c, 2).cursors);
    WalkKeepsEndpoints(d, 0);
    var r := CursorPick(t, d, ids, WalkTo(d, 0), 2);
    RingPickFacts(r, t);
    ThereAndBack(s, t, x, y, z, q.ring, r.ring, p.chosen);
    InRing(q.ring, key.ids, s, p.chosen);
    InRing(r.ring, key.ids, t, q.chosen);
    run := [c, d];
    SiteIsConsistent(s, ids, c);
    SiteIsConsistent(t, ids, d);
    TwoLogs(c, d, p, q, r);
    OneKey([p, q, r], key);
    Twice(p, q, r);
    hide Log, OfKey, Chosen, WalkTo;
    Unshared(run, key, [p, q, r], p.chosen);
  }

  lemma InRing(ring: seq<Id>, ids: set<Id>, s: Setting, id: Id)
    requires RingOf(ring, ids, s) && id in ids
    ensures id in ring
  {
  }

  lemma ThreeIds(x: Id, y: Id, z: Id)
    requires x != y && y != z && x != z
    ensures KeyFor([x, y, z]).ids == {x, y, z} && |{x, y, z}| == 3 && DistinctIds([x, y, z])
  {
    assert [x, y, z][0] == x && [x, y, z][1] == y && [x, y, z][2] == z;
  }

  lemma {:induction false} TwoLogs(c: Context, d: Context, p: Pick, q: Pick, r: Pick)
    requires |c.bindings| == 2 && |d.bindings| == 1
    requires PickOf(c, c.bindings[0], WalkTo(c, 0)) == [p] && PickOf(c, c.bindings[1], WalkTo(c, 1)) == [q]
    requires PickOf(d, d.bindings[0], WalkTo(d, 0)) == [r]
    ensures Log([c, d]) == [p, q, r]
  {
    hide PickOf, WalkTo;
    OnlyLog(c);
    assert [c, d][..1] == [c];
    TwoPicks(c, p, q);
    assert Picks(d, 0) == [];
    assert Picks(d, 1) == [] + [r];
  }

  lemma {:induction false} Twice(p: Pick, q: Pick, r: Pick)
    requires p.chosen == r.chosen
    ensures Chosen([p, q, r], p.chosen) >= 2
  {
    assert [] + [p] == [p] && [p] + [q] == [p, q] && [p, q] + [r] == [p, q, r];
    hide Chosen;
    CountOne([], p, p.chosen);
    CountOne([p], q, p.chosen);
    CountOne([p, q], r, p.chosen);
  }

  /** Round robin is fair in every run of sendable evaluations under the settings if and only if no setting bypasses the
      cursor and all of them rank any three endpoints in the same cyclic order. */
  lemma FairExactly(settings: iset<Setting>)
    ensures AlwaysFair(settings) <==> CursorDecides(settings)
  {
    if CursorDecides(settings) {
      forall run | run != [] && Threaded(run) && Under(run, settings) && Sendable(run) ensures FairRun(run) {
        forall key, from, to, id | 0 <= from <= to <= |OfKey(Log(run), key)| && id in key.ids
          ensures FairShare(OfKey(Log(run), key)[from..to], |key.ids|, id)
        {
          RoundRobinIsFair(run, settings, key, from, to, id);
        }
      }
    } else if s :| s in settings && Bypasses(s) {
      var run := BypassIsUnfair(s);
      assert Under(run, settings);
    } else {
      var s, t :| s in settings && t in settings && !SameCycles(s, t);
      var x, y, z :| Cycle(s, x, y, z) && !Cycle(t, x, y, z);
      var run := ReorderIsUnfair(s, t, x, y, z);
      assert Under(run, settings);
    }
  }
}
