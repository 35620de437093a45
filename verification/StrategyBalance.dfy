/** Counts are conserved by every evaluation, and a least-assigned rebalance is level. */
module StrategyBalance {
  import opened Wrappers
  import opened Strategy

  function Occurs(ids: seq<Id>, id: Id): nat {
    if ids == [] then 0 else Occurs(ids[..|ids| - 1], id) + if ids[|ids| - 1] == id then 1 else 0
  }

  /** The endpoints of a binding once the decisions so far are applied. */
  function Applied(b: Binding, decisions: seq<Decision>): seq<Id> {
    if decisions == [] then b.current
    else if decisions[|decisions| - 1].binding == b.id then decisions[|decisions| - 1].desired
    else Applied(b, decisions[..|decisions| - 1])
  }

  /** How many bindings point at the endpoint, counted afresh. */
  function Recount(bindings: seq<Binding>, decisions: seq<Decision>, id: Id): nat {
    if bindings == [] then 0
    else
      Recount(bindings[..|bindings| - 1], decisions, id) + Occurs(Applied(bindings[|bindings| - 1], decisions), id)
  }

  predicate DistinctBindings(bindings: seq<Binding>) {
    forall i, j :: 0 <= i < j < |bindings| ==> bindings[i].id != bindings[j].id
  }

  /** Every load equals the recount. */
  predicate Agrees(working: seq<Endpoint>, bindings: seq<Binding>, decisions: seq<Decision>) {
    forall i :: 0 <= i < |working| ==> working[i].load == Recount(bindings, decisions, working[i].id)
  }

  predicate ConsistentInput(c: Context) {
    DistinctEndpoints(c.endpoints) && DistinctBindings(c.bindings) && Agrees(c.endpoints, c.bindings, [])
  }

  predicate SameEndpoints(a: seq<Endpoint>, b: seq<Endpoint>) {
    |a| == |b| && forall i :: 0 <= i < |a| ==> a[i] == b[i].(load := a[i].load)
  }

  // ---------------------------------------------------------------- one binding's move

  lemma {:induction false} TakeOffAllLoads(working: seq<Endpoint>, ids: seq<Id>)
    requires forall i :: 0 <= i < |working| ==> working[i].load >= Occurs(ids, working[i].id)
    ensures SameEndpoints(TakeOffAll(working, ids), working)
    ensures forall i :: 0 <= i < |working| ==>
                          TakeOffAll(working, ids)[i].load == working[i].load - Occurs(ids, working[i].id)
  {
    if ids != [] {
      TakeOffAllLoads(working, ids[..|ids| - 1]);
    }
  }

  lemma {:induction false} PutOnAllLoads(working: seq<Endpoint>, ids: seq<Id>)
    ensures SameEndpoints(PutOnAll(working, ids), working)
    ensures forall i :: 0 <= i < |working| ==>
                          PutOnAll(working, ids)[i].load == working[i].load + Occurs(ids, working[i].id)
  {
    if ids != [] {
      PutOnAllLoads(working, ids[..|ids| - 1]);
    }
  }

  /** A binding without a decision counts with its current endpoints. */
  predicate Undecided(id: Id, decisions: seq<Decision>) {
    forall d :: d in decisions ==> d.binding != id
  }

  lemma {:induction false} UndecidedKeepsCurrent(b: Binding, decisions: seq<Decision>)
    requires Undecided(b.id, decisions)
    ensures Applied(b, decisions) == b.current
  {
    if decisions != [] {
      assert decisions[|decisions| - 1] in decisions;
      UndecidedKeepsCurrent(b, decisions[..|decisions| - 1]);
    }
  }

  lemma {:induction false} OthersKeepCount(bindings: seq<Binding>, decisions: seq<Decision>, d: Decision, id: Id)
    requires forall i :: 0 <= i < |bindings| ==> bindings[i].id != d.binding
    ensures Recount(bindings, decisions + [d], id) == Recount(bindings, decisions, id)
  {
    if bindings != [] {
      OthersKeepCount(bindings[..|bindings| - 1], decisions, d, id);
      assert (decisions + [d])[..|decisions|] == decisions;
    }
  }

  /** One more decision replaces the binding's endpoints in the recount. */
  lemma {:induction false} DecisionMoves(bindings: seq<Binding>, k: nat, decisions: seq<Decision>, d: Decision, id: Id)
    requires DistinctBindings(bindings) && k < |bindings| && d.binding == bindings[k].id
    requires Undecided(d.binding, decisions)
    ensures Recount(bindings, decisions + [d], id) ==
            Recount(bindings, decisions, id) - Occurs(bindings[k].current, id) + Occurs(d.desired, id)
  {
    var n := |bindings| - 1;
    assert (decisions + [d])[..|decisions|] == decisions;
    UndecidedKeepsCurrent(bindings[k], decisions);
    if k == n {
      OthersKeepCount(bindings[..n], decisions, d, id);
    } else {
      DecisionMoves(bindings[..n], k, decisions, d, id);
    }
  }

  lemma {:induction false} RecountCoversBinding(bindings: seq<Binding>, k: nat, decisions: seq<Decision>, id: Id)
    requires k < |bindings| && Undecided(bindings[k].id, decisions)
    ensures Recount(bindings, decisions, id) >= Occurs(bindings[k].current, id)
  {
    if k == |bindings| - 1 {
      UndecidedKeepsCurrent(bindings[k], decisions);
    } else {
      RecountCoversBinding(bindings[..|bindings| - 1], k, decisions, id);
    }
  }

  // ---------------------------------------------------------------- conservation

  /** Between two bindings: loads are the recount, later bindings are undecided. */
  predicate Consistent(c: Context, n: nat, w: Walk) {
    && n <= |c.bindings|
    && SameEndpoints(w.working, c.endpoints)
    && Agrees(w.working, c.bindings, w.decisions)
    && forall k :: n <= k < |c.bindings| ==> Undecided(c.bindings[k].id, w.decisions)
  }

  lemma ReleaseLoads(c: Context, n: nat, w: Walk)
    requires n < |c.bindings| && Consistent(c, n, w)
    ensures var released := TakeOffAll(w.working, c.bindings[n].current);
            && SameEndpoints(released, w.working)
            && forall i :: 0 <= i < |w.working| ==>
                             released[i].load == w.working[i].load - Occurs(c.bindings[n].current, w.working[i].id) >= 0
  {
    var b := c.bindings[n];
    forall i | 0 <= i < |w.working| ensures w.working[i].load >= Occurs(b.current, w.working[i].id) {
      RecountCoversBinding(c.bindings, n, w.decisions, w.working[i].id);
    }
    TakeOffAllLoads(w.working, b.current);
  }

  lemma NextUndecided(c: Context, n: nat, decisions: seq<Decision>, d: Decision)
    requires DistinctBindings(c.bindings) && n < |c.bindings| && d.binding == c.bindings[n].id
    requires forall k :: n <= k < |c.bindings| ==> Undecided(c.bindings[k].id, decisions)
    ensures forall k :: n < k < |c.bindings| ==> Undecided(c.bindings[k].id, decisions + [d])
  {
  }

  lemma AssignKeepsConsistent(
    c: Context, n: nat, w: Walk, key: CursorKey, recovers: bool, e: Endpoint)
    requires DistinctBindings(c.bindings) && n < |c.bindings| && Consistent(c, n, w)
    ensures Consistent(c, n + 1, Assign(c, c.bindings[n], key, recovers, TakeOffAll(w.working, c.bindings[n].current),
        e, w))
  {
    var b := c.bindings[n];
    var released := TakeOffAll(w.working, b.current);
    var w' := Assign(c, b, key, recovers, released, e, w);
    ReleaseLoads(c, n, w);
    forall i | 0 <= i < |w'.working|
      ensures w'.working[i].load == Recount(c.bindings, w'.decisions, w'.working[i].id)
    {
      var id := w'.working[i].id;
      assert [e.id][..0] == [];
      assert Occurs([e.id], id) == if e.id == id then 1 else 0;
      if w'.decisions != w.decisions {
        DecisionMoves(c.bindings, n, w.decisions, w'.decisions[|w.decisions|], id);
      }
    }
    if w'.decisions != w.decisions {
      NextUndecided(c, n, w.decisions, w'.decisions[|w.decisions|]);
    }
  }

  lemma RestoreKeepsConsistent(c: Context, n: nat, w: Walk)
    requires DistinctBindings(c.bindings) && n < |c.bindings| && Consistent(c, n, w)
    ensures var b := c.bindings[n];
            Consistent(c, n + 1,
                       Walk(PutOnAll(TakeOffAll(w.working, b.current), b.current), w.cursors,
                            w.decisions + [Decision(b.id, b.current, b.current, NoHealthyEndpoint)], true))
  {
    var b := c.bindings[n];
    var d := Decision(b.id, b.current, b.current, NoHealthyEndpoint);
    ReleaseLoads(c, n, w);
    PutOnAllLoads(TakeOffAll(w.working, b.current), b.current);
    forall i | 0 <= i < |w.working|
      ensures Recount(c.bindings, w.decisions + [d], w.working[i].id) == w.working[i].load
    {
      DecisionMoves(c.bindings, n, w.decisions, d, w.working[i].id);
    }
    NextUndecided(c, n, w.decisions, d);
  }

  lemma TurnKeepsConsistent(c: Context, n: nat, w: Walk)
    requires DistinctBindings(c.bindings) && n < |c.bindings| && Consistent(c, n, w)
    ensures Consistent(c, n + 1, Turn(c, c.bindings[n], w))
  {
    hide Consistent, Assign, Choice, Candidates, ShouldSelect, TakeOffAll, PutOnAll;
    var b := c.bindings[n];
    var candidates := Candidates(b, w.working);
    if !ShouldSelect(c, b, candidates) {
      SkipKeepsConsistent(c, n, w);
    } else {
      var key := KeyOf(b, candidates);
      var recovers := RecoversOriginal(c, b, candidates);
      var released := TakeOffAll(w.working, b.current);
      var choice := Choice(c, b, Candidates(b, released), recovers, CurrentHealthy(b, candidates),
                           if key in w.cursors then Some(w.cursors[key]) else c.cursor);
      match choice
      case None => RestoreKeepsConsistent(c, n, w);
      case Some(e) => AssignKeepsConsistent(c, n, w, key, recovers, e);
    }
  }

  lemma SkipKeepsConsistent(c: Context, n: nat, w: Walk)
    requires n < |c.bindings| && Consistent(c, n, w)
    ensures Consistent(c, n + 1, w)
  {
  }

  lemma {:induction false} InputIsConsistent(c: Context)
    requires ConsistentInput(c)
    ensures Consistent(c, 0, WalkTo(c, 0))
  {
  }

  lemma {:induction false} WalkStaysConsistent(c: Context, n: nat)
    requires ConsistentInput(c) && n <= |c.bindings|
    ensures Consistent(c, n, WalkTo(c, n))
  {
    hide Turn, Consistent, DistinctBindings, DistinctEndpoints, Agrees;
    if n == 0 {
      InputIsConsistent(c);
    } else {
      WalkStaysConsistent(c, n - 1);
      TurnKeepsConsistent(c, n - 1, WalkTo(c, n - 1));
    }
  }

  /** Whatever the trigger and mode, the loads at the end are what a recount finds after the
      decisions are applied. */
  lemma {:induction false} CountsAreConserved(c: Context)
    requires ConsistentInput(c)
    ensures Agrees(WalkTo(c, |c.bindings|).working, c.bindings, Evaluation(c).decisions)
  {
    WalkStaysConsistent(c, |c.bindings|);
  }

  // ---------------------------------------------------------------- a level rebalance

  predicate Shared(c: Context, b: Binding, working: seq<Endpoint>, ids: set<Id>) {
    |b.current| <= 1 && Ids(Candidates(b, working)) == ids
  }

  /** A rebalance by load where every binding has one endpoint at most and the same choices. */
  predicate LevelInput(c: Context, ids: set<Id>) {
    && ConsistentInput(c) && c.trigger.Rebalance? && c.mode.LeastAssigned? && ids != {}
    && forall k :: 0 <= k < |c.bindings| ==> Shared(c, c.bindings[k], c.endpoints, ids)
  }

  lemma {:induction false} CandidatesAreSuited(b: Binding, working: seq<Endpoint>)
    ensures forall e :: e in Candidates(b, working) <==> e in working && Suits(b, e)
  {
    if working != [] {
      CandidatesAreSuited(b, working[..|working| - 1]);
      assert forall e :: e in working <==> e in working[..|working| - 1] || e == working[|working| - 1];
    }
  }

  lemma {:induction false} CandidateIdsIgnoreLoads(b: Binding, a: seq<Endpoint>, w: seq<Endpoint>)
    requires SameEndpoints(a, w)
    ensures Ids(Candidates(b, a)) == Ids(Candidates(b, w))
  {
    IdsWithin(b, a, w);
    IdsWithin(b, w, a);
  }

  lemma {:induction false} IdsWithin(b: Binding, a: seq<Endpoint>, w: seq<Endpoint>)
    requires SameEndpoints(a, w)
    ensures Ids(Candidates(b, a)) <= Ids(Candidates(b, w))
  {
    CandidatesAreSuited(b, a);
    CandidatesAreSuited(b, w);
    var from, to := Candidates(b, a), Candidates(b, w);
    forall id | id in Ids(from) ensures id in Ids(to) {
      var i :| 0 <= i < |from| && from[i].id == id;
      assert from[i] in from;
      var k :| 0 <= k < |a| && a[k] == from[i];
      assert w[k] in w && Suits(b, w[k]);
      var j :| 0 <= j < |to| && to[j] == w[k];
    }
  }

  lemma {:induction false} LightestIsLightest(candidates: seq<Endpoint>)
    requires candidates != []
    ensures Lightest(candidates) in candidates
    ensures forall e :: e in candidates ==> LessLoaded(Lightest(candidates), e)
  {
    if |candidates| > 1 {
      LightestIsLightest(candidates[1..]);
      assert forall e :: e in candidates ==> e == candidates[0] || e in candidates[1..];
    }
  }

  /** The selected endpoint carries no more than any other candidate. */
  lemma {:induction false} LeastAssignedPicksLightest(c: Context, b: Binding, working: seq<Endpoint>,
      cursor: Option<Id>)
    requires Ids(Candidates(b, working)) != {}
    ensures var choice := Select(Candidates(b, working), LeastAssigned, b, cursor);
            && choice.Some? && choice.value in working && choice.value.id in Ids(Candidates(b, working))
            && forall e :: e in working && e.id in Ids(Candidates(b, working)) && DistinctEndpoints(working) ==>
                             choice.value.load <= e.load
  {
    hide Sorted, Before, Insert;
    var candidates := Candidates(b, working);
    var ranked := Ranked(candidates);
    RankedIsPermutation(candidates);
    SameElements(ranked, candidates);
    LightestIsLightest(ranked);
    CandidatesAreSuited(b, working);
    hide Ranked, Lightest, Candidates, Suits;
    var best := Lightest(ranked);
    var k :| 0 <= k < |candidates| && candidates[k] == best;
    forall e | e in working && e.id in Ids(candidates) && DistinctEndpoints(working) ensures best.load <= e.load {
      var i :| 0 <= i < |candidates| && candidates[i].id == e.id;
      assert candidates[i] in candidates;
      assert candidates[i] == e;
    }
  }

  /** Placed bindings at any candidate never exceed any candidate's load by more than one. */
  predicate Level(c: Context, n: nat, w: Walk, ids: set<Id>)
    requires n <= |c.bindings|
  {
    forall i, j :: 0 <= i < |w.working| && 0 <= j < |w.working| && w.working[i].id in ids && w.working[j].id in ids ==>
                     Recount(c.bindings[..n], w.decisions, w.working[i].id) <= w.working[j].load + 1
  }

  lemma {:induction false} RecountSplits(bindings: seq<Binding>, n: nat, decisions: seq<Decision>, id: Id)
    requires n < |bindings| && Undecided(bindings[n].id, decisions)
    ensures Recount(bindings, decisions, id) >= Recount(bindings[..n], decisions, id) + Occurs(bindings[n].current, id)
  {
    var m := |bindings| - 1;
    if n == m {
      UndecidedKeepsCurrent(bindings[n], decisions);
    } else {
      RecountSplits(bindings[..m], n, decisions, id);
      assert bindings[..m][..n] == bindings[..n];
    }
  }

  lemma {:induction false} OneCurrent(ids: seq<Id>, id: Id)
    requires |ids| <= 1
    ensures Occurs(ids, id) == if |ids| == 1 && ids[0] == id then 1 else 0
  {
    if |ids| == 1 {
      assert ids[..0] == [];
    }
  }

  /** What a turn chooses in this setting: a lightest candidate. */
  lemma RebalanceChoice(c: Context, n: nat, w: Walk, ids: set<Id>) returns (key: CursorKey, e: Endpoint)
    requires LevelInput(c, ids) && n < |c.bindings| && Consistent(c, n, w)
    ensures var b := c.bindings[n];
            var released := TakeOffAll(w.working, b.current);
            && e in released && e.id in ids
            && (forall x :: x in released && x.id in ids ==> e.load <= x.load)
            && Turn(c, b, w) == Assign(c, b, key, false, released, e, w)
  {
    hide Select, Candidates, TakeOffAll, Recount, KeyOf, CurrentHealthy, Assign, Agrees, Occurs;
    var b := c.bindings[n];
    var released := TakeOffAll(w.working, b.current);
    ReleaseLoads(c, n, w);
    assert Shared(c, b, c.endpoints, ids);
    CandidateIdsIgnoreLoads(b, w.working, c.endpoints);
    CandidateIdsIgnoreLoads(b, released, c.endpoints);
    key := KeyOf(b, Candidates(b, w.working));
    var cursor := if key in w.cursors then Some(w.cursors[key]) else c.cursor;
    LeastAssignedPicksLightest(c, b, released, cursor);
    e := Select(Candidates(b, released), LeastAssigned, b, cursor).value;
  }

  /** Where an undecided binding ends up when it is assigned in a rebalance. */
  lemma AssignPlaces(c: Context, n: nat, key: CursorKey, released: seq<Endpoint>, e: Endpoint, w: Walk)
    requires c.trigger.Rebalance? && DistinctBindings(c.bindings) && n < |c.bindings|
    requires Undecided(c.bindings[n].id, w.decisions)
    ensures var t := Assign(c, c.bindings[n], key, false, released, e, w);
            && t.working == PutOn(released, e.id)
            && Applied(c.bindings[n], t.decisions) == [e.id]
            && (forall k :: 0 <= k < |c.bindings| && k != n ==>
                  Applied(c.bindings[k], t.decisions) == Applied(c.bindings[k], w.decisions))
  {
    var ds := Assign(c, c.bindings[n], key, false, released, e, w).decisions;
    UndecidedKeepsCurrent(c.bindings[n], w.decisions);
    if ds != w.decisions {
      assert ds[..|ds| - 1] == w.decisions;
    }
  }

  /** What a turn does in this setting: the binding moves to a lightest candidate. */
  lemma RebalanceTurn(c: Context, n: nat, w: Walk, ids: set<Id>) returns (e: Endpoint)
    requires LevelInput(c, ids) && n < |c.bindings| && Consistent(c, n, w)
    ensures var b := c.bindings[n];
            var released := TakeOffAll(w.working, b.current);
            && e in released && e.id in ids
            && (forall x :: x in released && x.id in ids ==> e.load <= x.load)
            && Turn(c, b, w).working == PutOn(released, e.id)
            && Applied(b, Turn(c, b, w).decisions) == [e.id]
            && (forall k :: 0 <= k < |c.bindings| && k != n ==>
                  Applied(c.bindings[k], Turn(c, b, w).decisions) == Applied(c.bindings[k], w.decisions))
  {
    hide Turn, Assign, TakeOffAll, PutOn, Applied, Agrees, Shared, SameEndpoints, DistinctBindings, Undecided;
    var key: CursorKey;
    key, e := RebalanceChoice(c, n, w, ids);
    AssignPlaces(c, n, key, TakeOffAll(w.working, c.bindings[n].current), e, w);
  }

  lemma {:induction false} SamePlacement(bindings: seq<Binding>, a: seq<Decision>, b: seq<Decision>, id: Id)
    requires forall k :: 0 <= k < |bindings| ==> Applied(bindings[k], a) == Applied(bindings[k], b)
    ensures Recount(bindings, a, id) == Recount(bindings, b, id)
  {
    if bindings != [] {
      SamePlacement(bindings[..|bindings| - 1], a, b, id);
    }
  }

  lemma LevelSetting(c: Context, n: nat, w: Walk, ids: set<Id>)
    requires LevelInput(c, ids) && n < |c.bindings| && Consistent(c, n, w)
    ensures |c.bindings[n].current| <= 1 && DistinctEndpoints(w.working)
  {
    assert Shared(c, c.bindings[n], c.endpoints, ids);
  }

  /** The arithmetic of one move, for any two candidates: lifting the mover lowers at most one
      load, and it lands on a load that is lowest after the lift. */
  lemma MoveKeepsLevel(c: Context, n: nat, w: Walk, ids: set<Id>, e: Endpoint, i: nat, j: nat)
    requires LevelInput(c, ids) && n < |c.bindings| && Consistent(c, n, w) && Level(c, n, w, ids)
    requires i < |w.working| && j < |w.working| && w.working[i].id in ids && w.working[j].id in ids
    requires var released := TakeOffAll(w.working, c.bindings[n].current);
             && e in released && e.id in ids
             && forall x :: x in released && x.id in ids ==> e.load <= x.load
    ensures var released := TakeOffAll(w.working, c.bindings[n].current);
            |released| == |w.working| &&
            Recount(c.bindings[..n], w.decisions, w.working[i].id) + (if w.working[i].id == e.id then 1 else 0)
            <= PutOn(released, e.id)[j].load + 1
  {
    hide Recount, TakeOffAll, LevelInput, Occurs;
    var b := c.bindings[n];
    var released := TakeOffAll(w.working, b.current);
    ReleaseLoads(c, n, w);
    LevelSetting(c, n, w, ids);
    var h :| 0 <= h < |released| && released[h] == e;
    OneCurrent(b.current, w.working[j].id);
    OneCurrent(b.current, w.working[h].id);
    assert released[j] in released;
    if i == h {
      RecountSplits(c.bindings, n, w.decisions, e.id);
    } else {
      assert w.working[i].id != e.id;
      assert Recount(c.bindings[..n], w.decisions, w.working[i].id) <= w.working[h].load + 1;
    }
  }

  lemma TurnKeepsLevel(c: Context, n: nat, w: Walk, ids: set<Id>)
    requires LevelInput(c, ids) && n < |c.bindings| && Consistent(c, n, w) && Level(c, n, w, ids)
    ensures Level(c, n + 1, Turn(c, c.bindings[n], w), ids)
  {
    hide Turn, LevelInput, TakeOffAll, Applied, Agrees, Undecided;
    var b := c.bindings[n];
    var w' := Turn(c, b, w);
    var e := RebalanceTurn(c, n, w, ids);
    ReleaseLoads(c, n, w);
    hide Consistent;
    forall i, j | 0 <= i < |w'.working| && 0 <= j < |w'.working| && w'.working[i].id in ids && w'.working[j].id in ids
      ensures Recount(c.bindings[..n + 1], w'.decisions, w'.working[i].id) <= w'.working[j].load + 1
    {
      var id := w.working[i].id;
      assert c.bindings[..n + 1][..n] == c.bindings[..n];
      SamePlacement(c.bindings[..n], w'.decisions, w.decisions, id);
      OneCurrent([e.id], id);
      MoveKeepsLevel(c, n, w, ids, e, i, j);
    }
  }

  lemma LevelIsConsistent(c: Context, ids: set<Id>)
    requires LevelInput(c, ids)
    ensures ConsistentInput(c)
  {
  }

  lemma {:induction false} InputIsLevel(c: Context, ids: set<Id>)
    requires LevelInput(c, ids)
    ensures Level(c, 0, WalkTo(c, 0), ids)
  {
  }

  lemma {:induction false} WalkStaysLevel(c: Context, n: nat, ids: set<Id>)
    requires LevelInput(c, ids) && n <= |c.bindings|
    ensures Level(c, n, WalkTo(c, n), ids)
  {
    hide Turn, Consistent, Level, LevelInput, ConsistentInput;
    if n == 0 {
      InputIsLevel(c, ids);
    } else {
      WalkStaysLevel(c, n - 1, ids);
      LevelIsConsistent(c, ids);
      WalkStaysConsistent(c, n - 1);
      TurnKeepsLevel(c, n - 1, WalkTo(c, n - 1), ids);
    }
  }

  /** After a least-assigned rebalance over one shared candidate set, the loads of any two
      candidates differ by at most one, and the loads are what the decisions assign. */
  lemma {:induction false} RebalanceIsLevel(c: Context, ids: set<Id>, i: nat, j: nat)
    requires LevelInput(c, ids)
    requires i < |c.endpoints| && j < |c.endpoints| && c.endpoints[i].id in ids && c.endpoints[j].id in ids
    ensures var end := WalkTo(c, |c.bindings|).working;
            && |end| == |c.endpoints|
            && end[i].load == Recount(c.bindings, Evaluation(c).decisions, c.endpoints[i].id)
            && end[i].load <= end[j].load + 1
  {
    WalkStaysConsistent(c, |c.bindings|);
    WalkStaysLevel(c, |c.bindings|, ids);
    assert c.bindings[..|c.bindings|] == c.bindings;
  }
}
