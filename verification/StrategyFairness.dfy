/** Round-robin shares are even across evaluations that thread their cursors. */
module StrategyFairness {
  import opened Wrappers
  import opened Strategy

  /** One round-robin selection: the ranked ids it chose from, and whether the cursor decided
      (recovery of the original and repair of a healthy binding bypass it). */
  datatype Pick = Pick(key: CursorKey, ring: seq<Id>, chosen: Id, byCursor: bool)

  function RankedIds(ranked: seq<Endpoint>): seq<Id> {
    seq(|ranked|, i requires 0 <= i < |ranked| => ranked[i].id)
  }

  function PickOf(c: Context, b: Binding, w: Walk): seq<Pick> {
    var candidates := Candidates(b, w.working);
    if !ShouldSelect(c, b, candidates) then []
    else
      var key := KeyOf(b, candidates);
      var recovers := RecoversOriginal(c, b, candidates);
      var cursor := if key in w.cursors then Some(w.cursors[key]) else c.cursor;
      var now := Candidates(b, TakeOffAll(w.working, b.current));
      match Choice(c, b, now, recovers, CurrentHealthy(b, candidates), cursor)
      case None => []
      case Some(e) =>
        [Pick(key, RankedIds(Ranked(now)), e.id,
              !recovers && !(c.trigger.Repair? && CurrentHealthy(b, candidates)))]
  }

  /** The selections of the first `n` bindings, in order. */
  function Picks(c: Context, n: nat): seq<Pick>
    requires n <= |c.bindings|
  {
    if n == 0 then [] else Picks(c, n - 1) + PickOf(c, c.bindings[n - 1], WalkTo(c, n - 1))
  }

  /** The selections of a run of evaluations. */
  function Log(run: seq<Context>): seq<Pick> {
    if run == [] then [] else Log(run[..|run| - 1]) + Picks(run[|run| - 1], |run[|run| - 1].bindings|)
  }

  /** Each evaluation starts from the cursors the previous one returned. */
  predicate Threaded(run: seq<Context>) {
    && (forall i :: 0 <= i < |run| ==> run[i].mode.RoundRobin?)
    && (forall i :: 0 < i < |run| ==> Some(run[i].cursors) == Evaluation(run[i - 1]).cursors)
  }

  function OfKey(picks: seq<Pick>, key: CursorKey): seq<Pick> {
    if picks == [] then []
    else
      var last := picks[|picks| - 1];
      OfKey(picks[..|picks| - 1], key) + if last.key == key then [last] else []
  }

  function Position(ring: seq<Id>, id: Id): int {
    if ring == [] then -1
    else if ring[0] == id then 0
    else
      var later := Position(ring[1..], id);
      if later < 0 then -1 else later + 1
  }

  lemma {:induction false} PositionFinds(ring: seq<Id>, id: Id)
    ensures -1 <= Position(ring, id) < |ring|
    ensures Position(ring, id) >= 0 ==> ring[Position(ring, id)] == id
    ensures Position(ring, id) < 0 <==> id !in ring
  {
    if ring != [] {
      PositionFinds(ring[1..], id);
      assert id in ring <==> id == ring[0] || id in ring[1..];
    }
  }

  predicate Follows(p: Pick, q: Pick) {
    && q.ring != []
    && (PositionFinds(q.ring, p.chosen); q.chosen == q.ring[(Position(q.ring, p.chosen) + 1) % |q.ring|])
  }

  /** Each cursor-made selection takes the ring's next id after the previous selection. */
  predicate Chained(picks: seq<Pick>) {
    forall i {:trigger picks[i]} :: 0 < i < |picks| && picks[i].byCursor ==> Follows(picks[i - 1], picks[i])
  }

  // ---------------------------------------------------------------- the cursor remembers

  lemma {:induction false} PositionIsIndex(ranked: seq<Endpoint>, id: Id)
    ensures Position(RankedIds(ranked), id) == IndexOf(ranked, id)
  {
    if ranked != [] {
      PositionIsIndex(ranked[1..], id);
      assert RankedIds(ranked)[1..] == RankedIds(ranked[1..]);
    }
  }

  lemma {:induction false} AfterCursorFollows(ranked: seq<Endpoint>, cursor: Id)
    requires ranked != []
    ensures var ring := RankedIds(ranked);
            && -1 <= Position(ring, cursor)
            && AfterCursor(ranked, Some(cursor)).id == ring[(Position(ring, cursor) + 1) % |ring|]
  {
    PositionFinds(RankedIds(ranked), cursor);
    PositionIsIndex(ranked, cursor);
  }

  /** The key's cursor is the endpoint last selected under it, and its picks are chained. */
  predicate Good(cursors: map<CursorKey, Id>, picks: seq<Pick>, key: CursorKey) {
    && (OfKey(picks, key) != [] ==>
          key in cursors && cursors[key] == OfKey(picks, key)[|OfKey(picks, key)| - 1].chosen)
    && Chained(OfKey(picks, key))
  }

  lemma ChoiceIsCandidate(c: Context, b: Binding, now: seq<Endpoint>, recovers: bool, healthy: bool, cursor: Option<Id>)
    requires recovers ==> b.original.Some?
    requires Choice(c, b, now, recovers, healthy, cursor).Some?
    ensures Choice(c, b, now, recovers, healthy, cursor).value in now && now != []
  {
    RankedIsPermutation(now);
    SameElements(Ranked(now), now);
    if recovers {
      IndexOfFinds(now, b.original.value);
    } else if c.trigger.Repair? && healthy {
      FirstOfIsCandidate(b.current, now);
    } else {
      var ranked := Ranked(now);
      if c.mode.LeastAssigned? {
        LightestIsMember(ranked);
      }
    }
  }

  lemma {:induction false} LightestIsMember(candidates: seq<Endpoint>)
    requires candidates != []
    ensures Lightest(candidates) in candidates
  {
    if |candidates| > 1 {
      LightestIsMember(candidates[1..]);
    }
  }

  lemma {:induction false} FirstOfIsCandidate(ids: seq<Id>, candidates: seq<Endpoint>)
    requires FirstOf(ids, candidates).Some?
    ensures FirstOf(ids, candidates).value in candidates
  {
    if ids != [] {
      IndexOfFinds(candidates, ids[0]);
      if Find(candidates, ids[0]).None? {
        FirstOfIsCandidate(ids[1..], candidates);
      }
    }
  }

  lemma {:induction false} ChosenInRing(now: seq<Endpoint>, e: Endpoint)
    requires e in now
    ensures Ranked(now) != [] && e.id in RankedIds(Ranked(now))
  {
    RankedIsPermutation(now);
    SameElements(Ranked(now), now);
    var k :| 0 <= k < |Ranked(now)| && Ranked(now)[k] == e;
    assert RankedIds(Ranked(now))[k] == e.id;
  }

  /** A selection sets the key's cursor; its choice is in its ring and follows the cursor. */
  lemma PickFacts(c: Context, b: Binding, w: Walk)
    requires c.mode.RoundRobin?
    ensures var picks := PickOf(c, b, w);
            && |picks| <= 1
            && (picks == [] ==> Turn(c, b, w).cursors == w.cursors)
            && (picks != [] ==>
                  && Turn(c, b, w).cursors == w.cursors[picks[0].key := picks[0].chosen]
                  && picks[0].chosen in picks[0].ring
                  && (picks[0].byCursor && picks[0].key in w.cursors ==>
                        (PositionFinds(picks[0].ring, w.cursors[picks[0].key]);
                         picks[0].chosen ==
                         picks[0].ring[(Position(picks[0].ring, w.cursors[picks[0].key]) + 1) % |picks[0].ring|])))
  {
    var picks := PickOf(c, b, w);
    if picks != [] {
      var candidates := Candidates(b, w.working);
      var key := KeyOf(b, candidates);
      var recovers := RecoversOriginal(c, b, candidates);
      var cursor := if key in w.cursors then Some(w.cursors[key]) else c.cursor;
      var now := Candidates(b, TakeOffAll(w.working, b.current));
      ChoiceIsCandidate(c, b, now, recovers, CurrentHealthy(b, candidates), cursor);
      ChosenInRing(now, Choice(c, b, now, recovers, CurrentHealthy(b, candidates), cursor).value);
      hide Ranked, Candidates, TakeOffAll, ShouldSelect, CurrentHealthy, RecoversOriginal, KeyOf;
      if picks[0].byCursor && key in w.cursors {
        AfterCursorFollows(Ranked(now), w.cursors[key]);
      }
    }
  }

  lemma ExtendGood(cursors: map<CursorKey, Id>, picks: seq<Pick>, p: Pick, key: CursorKey)
    requires Good(cursors, picks, key)
    requires p.byCursor && p.key in cursors ==>
               p.ring != [] && (PositionFinds(p.ring, cursors[p.key]);
                   p.chosen == p.ring[(Position(p.ring, cursors[p.key]) + 1) % |p.ring|])
    ensures Good(cursors[p.key := p.chosen], picks + [p], key)
  {
    assert (picks + [p])[..|picks|] == picks;
    var before, after := OfKey(picks, key), OfKey(picks + [p], key);
    if p.key == key {
      assert after == before + [p];
      forall i | 0 < i < |after| && after[i].byCursor ensures Follows(after[i - 1], after[i]) {
        if i < |before| {
          assert after[i] == before[i] && after[i - 1] == before[i - 1];
        }
      }
    }
  }

  lemma {:induction false} PicksStayGood(c: Context, n: nat, earlier: seq<Pick>, key: CursorKey)
    requires c.mode.RoundRobin? && n <= |c.bindings| && Good(c.cursors, earlier, key)
    ensures Good(WalkTo(c, n).cursors, earlier + Picks(c, n), key)
  {
    hide Turn, PickOf, Good;
    if n == 0 {
      assert earlier + [] == earlier;
    } else {
      PicksStayGood(c, n - 1, earlier, key);
      var w := WalkTo(c, n - 1);
      var b := c.bindings[n - 1];
      PickFacts(c, b, w);
      var before := earlier + Picks(c, n - 1);
      if PickOf(c, b, w) == [] {
        assert before + [] == earlier + Picks(c, n);
        assert before + [] == before;
      } else {
        ExtendGood(w.cursors, before, PickOf(c, b, w)[0], key);
        assert before + [PickOf(c, b, w)[0]] == earlier + Picks(c, n);
      }
    }
  }

  lemma {:induction false} LogStaysGood(run: seq<Context>, key: CursorKey)
    requires Threaded(run) && run != []
    ensures var last := run[|run| - 1];
            Good(WalkTo(last, |last.bindings|).cursors, Log(run), key)
  {
    var n := |run| - 1;
    var last := run[n];
    if n == 0 {
      assert run[..0] == [];
      assert [] + Picks(last, |last.bindings|) == Log(run);
      PicksStayGood(last, |last.bindings|, [], key);
    } else {
      LogStaysGood(run[..n], key);
      assert run[..n][n - 1] == run[n - 1];
      assert Evaluation(run[n - 1]).cursors == Some(last.cursors);
      PicksStayGood(last, |last.bindings|, Log(run[..n]), key);
    }
  }

  // ---------------------------------------------------------------- counting

  function Chosen(picks: seq<Pick>, id: Id): nat {
    if picks == [] then 0
    else Chosen(picks[..|picks| - 1], id) + if picks[|picks| - 1].chosen == id then 1 else 0
  }

  predicate DistinctIds(ring: seq<Id>) {
    forall i, j :: 0 <= i < j < |ring| ==> ring[i] != ring[j]
  }

  /** Selections over one ring, all but perhaps the first made by the cursor. */
  predicate SteadyPicks(picks: seq<Pick>, ring: seq<Id>) {
    && DistinctIds(ring)
    && (forall i :: 0 <= i < |picks| ==> picks[i].ring == ring)
    && (forall i :: 0 < i < |picks| ==> picks[i].byCursor)
    && (picks != [] ==> picks[0].chosen in ring)
  }

  /** The position `r` turns after `first` on a ring of `n`. */
  function Shifted(first: nat, r: nat, n: nat): nat
    requires first < n && r < n
  {
    if first + r < n then first + r else first + r - n
  }

  /** A turn moves the position by one, wrapping. */
  lemma NextPosition(p: Pick, q: Pick, ring: seq<Id>, at: nat)
    requires Follows(p, q) && q.ring == ring && DistinctIds(ring) && at < |ring| && ring[at] == p.chosen
    ensures q.chosen == if at + 1 < |ring| then ring[at + 1] else ring[0]
  {
    PositionFinds(ring, p.chosen);
    assert Position(ring, p.chosen) == at;
    SmallRemainder(at + 1, |ring|);
  }

  lemma SmallRemainder(x: nat, n: nat)
    requires 0 < n && x <= n
    ensures x % n == if x == n then 0 else x
  {
  }

  /** After `rounds` full rounds and `r` more turns, a position at distance `d` has been met
      once in each round, and once more if the partial round got past it. */
  predicate Counted(picks: seq<Pick>, ring: seq<Id>, first: nat, rounds: nat, r: nat)
    requires first < |ring|
  {
    && r < |ring| && |picks| == rounds * |ring| + r
    && (picks != [] ==>
          picks[|picks| - 1].chosen == ring[Shifted(first, if r == 0 then |ring| - 1 else r - 1, |ring|)])
    && forall d: nat :: d < |ring| ==>
                     Chosen(picks, ring[Shifted(first, d, |ring|)]) == rounds + if d < r then 1 else 0
  }

  lemma {:induction false} RoundsCount(picks: seq<Pick>, ring: seq<Id>, first: nat) returns (rounds: nat, r: nat)
    requires SteadyPicks(picks, ring) && Chained(picks) && first < |ring|
    requires picks != [] ==> ring[first] == picks[0].chosen
    ensures Counted(picks, ring, first, rounds, r)
  {
    hide Follows, Position;
    if picks == [] {
      rounds, r := 0, 0;
    } else {
      hide Chosen, Counted, Shifted;
      var k := |picks| - 1;
      var shorter := picks[..k];
      assert forall i :: 0 <= i < k ==> shorter[i] == picks[i];
      rounds, r := RoundsCount(shorter, ring, first);
      LastPick(picks, ring, first, rounds, r);
      CountOneMore(picks, ring, first, rounds, r);
      if r + 1 < |ring| {
        r := r + 1;
      } else {
        rounds, r := rounds + 1, 0;
      }
    }
  }

  lemma NothingYet(rounds: nat, r: nat, n: nat)
    requires n > 0 && rounds * n + r == 0
    ensures rounds == 0 && r == 0
  {
  }

  /** The newest selection is the one `r` turns after `first`. */
  lemma LastPick(picks: seq<Pick>, ring: seq<Id>, first: nat, rounds: nat, r: nat)
    requires picks != [] && SteadyPicks(picks, ring) && Chained(picks) && first < |ring|
    requires ring[first] == picks[0].chosen
    requires Counted(picks[..|picks| - 1], ring, first, rounds, r)
    ensures picks[|picks| - 1].chosen == ring[Shifted(first, r, |ring|)]
  {
    var k := |picks| - 1;
    if k == 0 {
      NothingYet(rounds, r, |ring|);
    } else {
      assert Follows(picks[k - 1], picks[k]);
      NextPosition(picks[k - 1], picks[k], ring, Shifted(first, if r == 0 then |ring| - 1 else r - 1, |ring|));
    }
  }

  lemma ShiftedIsInjective(first: nat, a: nat, b: nat, n: nat)
    requires first < n && a < n && b < n
    ensures Shifted(first, a, n) == Shifted(first, b, n) <==> a == b
  {
  }

  lemma CountOneMore(picks: seq<Pick>, ring: seq<Id>, first: nat, rounds: nat, r: nat)
    requires picks != [] && DistinctIds(ring) && first < |ring|
    requires Counted(picks[..|picks| - 1], ring, first, rounds, r)
    requires picks[|picks| - 1].chosen == ring[Shifted(first, r, |ring|)]
    ensures if r + 1 < |ring| then Counted(picks, ring, first, rounds, r + 1)
            else Counted(picks, ring, first, rounds + 1, 0)
  {
    var n := |ring|;
    forall d: nat | d < n
      ensures Chosen(picks, ring[Shifted(first, d, n)]) == rounds + if d <= r then 1 else 0
    {
      ShiftedIsInjective(first, d, r, n);
      assert Shifted(first, d, n) != Shifted(first, r, n) ==> ring[Shifted(first, d, n)] != ring[Shifted(first, r, n)];
    }
    assert (rounds + 1) * n == rounds * n + n;
  }

  /** An endpoint's share of `k` selections among `n` is floor(k/n) or ceil(k/n): it differs from
      `k / n` by less than one. */
  predicate FairShare(picks: seq<Pick>, n: nat, id: Id) {
    |picks| - n < Chosen(picks, id) * n < |picks| + n
  }

  /** Chained selections on one ring are shared fairly. */
  lemma SteadyIsFair(picks: seq<Pick>, ring: seq<Id>, id: Id)
    requires SteadyPicks(picks, ring) && Chained(picks) && id in ring
    ensures FairShare(picks, |ring|, id)
  {
    var n := |ring|;
    var first: nat := if picks == [] then 0 else (var i :| 0 <= i < n && ring[i] == picks[0].chosen; i);
    var rounds, r := RoundsCount(picks, ring, first);
    var spot :| 0 <= spot < n && ring[spot] == id;
    var d := if spot >= first then spot - first else spot - first + n;
    assert Shifted(first, d, n) == spot;
    NearMultiple(rounds, r, n, Chosen(picks, id));
  }

  lemma StretchIsChained(all: seq<Pick>, from: nat, to: nat)
    requires Chained(all) && from <= to <= |all|
    ensures Chained(all[from..to])
  {
    var picks := all[from..to];
    forall i | 0 < i < |picks| && picks[i].byCursor ensures Follows(picks[i - 1], picks[i]) {
      assert picks[i] == all[from + i] && picks[i - 1] == all[from + i - 1];
    }
  }

  lemma NearMultiple(rounds: nat, r: nat, n: nat, chosen: nat)
    requires r < n && (chosen == rounds || (chosen == rounds + 1 && r > 0))
    ensures rounds * n + r - n < chosen * n < rounds * n + r + n
  {
    assert (rounds + 1) * n == rounds * n + n;
  }
}
