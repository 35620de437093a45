/** What an evaluation does for every binding: nobody is left on a dead endpoint while a live one
    exists, and under each trigger exactly the bindings that must move do. */
module StrategyFailover {
  import opened Wrappers
  import opened Strategy
  import opened StrategyBalance
  import opened StrategyFairness

  /** The endpoint is switched on, of the binding's family, and healthy or degraded in the
      binding's own view when it has one, else in the general view. */
  predicate Serves(b: Binding, e: Endpoint) {
    && e.enabled
    && (b.family.Some? ==> b.family.value in e.families)
    && (b.states.None? ==> e.health == Healthy || e.health == Degraded)
    && (b.states.Some? ==>
          e.id in b.states.value && (b.states.value[e.id] == Healthy || b.states.value[e.id] == Degraded))
  }

  function Serving(b: Binding, endpoints: seq<Endpoint>): set<Id> {
    set i | 0 <= i < |endpoints| && Serves(b, endpoints[i]) :: endpoints[i].id
  }

  /** One of these endpoints serves the binding. */
  predicate Served(ids: seq<Id>, serving: set<Id>) {
    exists i :: 0 <= i < |ids| && ids[i] in serving
  }

  lemma CandidatesServe(b: Binding, working: seq<Endpoint>, endpoints: seq<Endpoint>)
    requires SameEndpoints(working, endpoints)
    ensures Ids(Candidates(b, working)) == Serving(b, endpoints)
  {
    hide Candidates;
    CandidatesAreSuited(b, working);
    var candidates := Candidates(b, working);
    forall id | id in Ids(candidates) ensures id in Serving(b, endpoints) {
      var i :| 0 <= i < |candidates| && candidates[i].id == id;
      assert candidates[i] in candidates;
      var k :| 0 <= k < |working| && working[k] == candidates[i];
      assert Serves(b, endpoints[k]);
    }
    forall id | id in Serving(b, endpoints) ensures id in Ids(candidates) {
      var k :| 0 <= k < |endpoints| && Serves(b, endpoints[k]) && endpoints[k].id == id;
      assert working[k] in working && Suits(b, working[k]);
      var i :| 0 <= i < |candidates| && candidates[i] == working[k];
    }
  }

  lemma EmptyIds(endpoints: seq<Endpoint>)
    ensures endpoints == [] <==> Ids(endpoints) == {}
  {
    if endpoints != [] {
      assert endpoints[0].id in Ids(endpoints);
    }
  }

  // ---------------------------------------------------------------- one binding's choice

  /** The two branches that settle a choice by themselves. */
  predicate Returns(c: Context, b: Binding, serving: set<Id>) {
    && c.trigger.Recovery? && (c.recovery.Automatic? || c.recovery.Delayed?)
    && b.original.Some? && b.original.value in serving && b.original.value !in b.current
  }

  /** A selection is made for the binding. */
  predicate Moves(c: Context, b: Binding, serving: set<Id>) {
    c.trigger.Rebalance? || c.trigger.Configuration? || c.trigger.Repair? || !Served(b.current, serving)
    || Returns(c, b, serving)
  }

  /** The first of the ids that serves. */
  predicate FirstServing(ids: seq<Id>, serving: set<Id>, id: Id) {
    id in serving && exists i :: 0 <= i < |ids| && ids[i] == id && forall j :: 0 <= j < i ==> ids[j] !in serving
  }

  lemma {:induction false} FirstOfIsFirst(ids: seq<Id>, candidates: seq<Endpoint>)
    requires Served(ids, Ids(candidates))
    ensures FirstOf(ids, candidates).Some? && FirstOf(ids, candidates).value in candidates
    ensures FirstServing(ids, Ids(candidates), FirstOf(ids, candidates).value.id)
  {
    hide Ids, IndexOf;
    IndexOfFinds(candidates, ids[0]);
    if ids[0] !in Ids(candidates) {
      var i :| 0 <= i < |ids| && ids[i] in Ids(candidates);
      assert ids[1..][i - 1] == ids[i];
      FirstOfIsFirst(ids[1..], candidates);
      var id := FirstOf(ids[1..], candidates).value.id;
      var k :| 0 <= k < |ids[1..]| && ids[1..][k] == id && forall j :: 0 <= j < k ==> ids[1..][j] !in Ids(candidates);
      forall j | 0 <= j < k + 1 ensures ids[j] !in Ids(candidates) {
        assert j > 0 ==> ids[j] == ids[1..][j - 1];
      }
      assert ids[k + 1] == id;
    } else {
      assert FirstOf(ids, candidates) == Find(candidates, ids[0]);
      var e := Find(candidates, ids[0]).value;
      assert ids[0] == e.id;
    }
  }

  /** No candidate comes before it in priority and id. */
  predicate Foremost(e: Endpoint, candidates: seq<Endpoint>) {
    forall i :: 0 <= i < |candidates| ==>
      e.priority < candidates[i].priority || (e.priority == candidates[i].priority && e.id <= candidates[i].id)
  }

  /** No candidate carries less, or as much and comes before it. */
  predicate LeastLoaded(e: Endpoint, candidates: seq<Endpoint>) {
    forall i :: 0 <= i < |candidates| ==>
      || e.load < candidates[i].load
      || (e.load == candidates[i].load
          && (e.priority < candidates[i].priority
              || (e.priority == candidates[i].priority && e.id <= candidates[i].id)))
  }

  /** The candidate at that place of their ranking by priority and id, counted round. */
  ghost predicate AtPlace(e: Endpoint, candidates: seq<Endpoint>, place: nat) {
    exists ranked: seq<Endpoint> ::
      multiset(ranked) == multiset(candidates) && Sorted(ranked) && ranked != [] && e == ranked[place % |ranked|]
  }

  /** How a selection by mode looks: the foremost, the least loaded, or where the draw falls; the
      cursor of round robin is the matter of StrategyFairness. */
  ghost predicate Chosen(e: Endpoint, mode: SelectionMode, candidates: seq<Endpoint>, draw: nat) {
    && e in candidates
    && (mode.Ordered? ==> Foremost(e, candidates))
    && (mode.LeastAssigned? ==> LeastLoaded(e, candidates))
    && (mode.Random? ==> AtPlace(e, candidates, draw))
  }

  lemma SelectsByMode(candidates: seq<Endpoint>, mode: SelectionMode, b: Binding, cursor: Option<Id>)
    ensures Select(candidates, mode, b, cursor).None? <==> candidates == []
    ensures candidates != [] ==> Chosen(Select(candidates, mode, b, cursor).value, mode, candidates, b.draw)
  {
    hide Ranked, Sorted, Insert, IndexOf, Lightest;
    if candidates != [] {
      var ranked := Ranked(candidates);
      RankedIsPermutation(candidates);
      SameElements(ranked, candidates);
      LightestIsLightest(ranked);
      assert ranked[0] in ranked;
      assert forall i :: 0 <= i < |candidates| ==> candidates[i] in candidates;
    }
  }

  /** What is chosen for a binding that moves. */
  lemma ChoiceIs(c: Context, b: Binding, now: seq<Endpoint>, cursor: Option<Id>)
    ensures var serving := Ids(now); var recovers, healthy := Returns(c, b, serving), Served(b.current, serving);
            var choice := Choice(c, b, now, recovers, healthy, cursor);
            && (choice.None? <==> serving == {})
            && (choice.Some? ==>
                  && choice.value in now && choice.value.id in serving
                  && (if recovers then choice.value.id == b.original.value
                      else if c.trigger.Repair? && healthy then FirstServing(b.current, serving, choice.value.id)
                      else Chosen(choice.value, c.mode, now, b.draw)))
  {
    hide Ids, IndexOf, Select, Foremost, LeastLoaded, AtPlace;
    EmptyIds(now);
    SelectsByMode(now, c.mode, b, cursor);
    if Returns(c, b, Ids(now)) {
      IndexOfFinds(now, b.original.value);
    } else if c.trigger.Repair? && Served(b.current, Ids(now)) {
      FirstOfIsFirst(b.current, now);
    }
    forall e | e in now ensures e.id in Ids(now) {
      MemberId(e, now);
    }
  }

  lemma MemberId(e: Endpoint, endpoints: seq<Endpoint>)
    requires e in endpoints
    ensures e.id in Ids(endpoints)
  {
    var i :| 0 <= i < |endpoints| && endpoints[i] == e;
  }

  // ---------------------------------------------------------------- one turn

  /** Why a binding that moves gets its new endpoint. */
  function ReasonFor(c: Context, b: Binding, serving: set<Id>): Reason {
    if Returns(c, b, serving) then ForRecovery
    else if c.trigger.Repair? || c.trigger.Configuration? || c.trigger.Rebalance? then ForRebalance
    else ForFailure
  }

  /** A forced decision is reported even when the binding stays where it is. */
  predicate Reported(c: Context, b: Binding, chosen: Id) {
    c.trigger.Repair? || c.trigger.Configuration? || b.current != [chosen]
  }

  /** The endpoint a moving binding gets, with its own load taken off the others. */
  ghost predicate Gets(c: Context, b: Binding, working: seq<Endpoint>, serving: set<Id>, e: Endpoint) {
    var now := Candidates(b, TakeOffAll(working, b.current));
    && e in now && e.id in serving
    && if Returns(c, b, serving) then e.id == b.original.value
       else if c.trigger.Repair? && Served(b.current, serving) then FirstServing(b.current, serving, e.id)
       else Chosen(e, c.mode, now, b.draw)
  }

  /** What the pass reports about a move to `id`. */
  function MoveTo(c: Context, b: Binding, serving: set<Id>, id: Id): seq<Decision> {
    if Reported(c, b, id) then [Decision(b.id, b.current, [id], ReasonFor(c, b, serving))] else []
  }

  /** Everything one turn decides, by cases on what serves the binding. */
  ghost predicate Decides(c: Context, b: Binding, w: Walk, t: Walk, serving: set<Id>) {
    if serving == {} then
      && t.decisions == w.decisions + [Decision(b.id, b.current, b.current, NoHealthyEndpoint)]
      && t.noHealthyEndpoints
    else
      && t.noHealthyEndpoints == w.noHealthyEndpoints
      && if !Moves(c, b, serving) then t.decisions == w.decisions
         else
           exists e :: && Gets(c, b, w.working, serving, e)
                       && t.decisions == w.decisions + MoveTo(c, b, serving, e.id)
  }

  lemma TurnDecides(c: Context, b: Binding, w: Walk)
    requires SameEndpoints(w.working, c.endpoints)
    ensures Decides(c, b, w, Turn(c, b, w), Serving(b, c.endpoints))
  {
    hide Candidates, TakeOffAll, PutOnAll, PutOn, Ids, KeyOf, Choice, Serving, Chosen, SameEndpoints;
    var serving, released := Serving(b, c.endpoints), TakeOffAll(w.working, b.current);
    var candidates, now := Candidates(b, w.working), Candidates(b, released);
    ReleasedIsSame(w.working, b.current, c.endpoints);
    CandidatesServe(b, w.working, c.endpoints);
    CandidatesServe(b, released, c.endpoints);
    var key := KeyOf(b, candidates);
    var cursor := if key in w.cursors then Some(w.cursors[key]) else c.cursor;
    ChoiceIs(c, b, now, cursor);
    NobodyServed(b, serving);
    assert CurrentHealthy(b, candidates) == Served(b.current, serving);
    assert RecoversOriginal(c, b, candidates) == Returns(c, b, serving);
    assert ShouldSelect(c, b, candidates) == Moves(c, b, serving);
    if ShouldSelect(c, b, candidates) {
      var choice := Choice(c, b, now, RecoversOriginal(c, b, candidates), CurrentHealthy(b, candidates), cursor);
      if choice.Some? {
        assert Gets(c, b, w.working, serving, choice.value);
      }
    }
  }

  lemma NobodyServed(b: Binding, serving: set<Id>)
    ensures serving == {} ==> !Served(b.current, serving)
  {
  }

  lemma {:induction false} ReleasedIsSame(working: seq<Endpoint>, ids: seq<Id>, endpoints: seq<Endpoint>)
    requires SameEndpoints(working, endpoints)
    ensures SameEndpoints(TakeOffAll(working, ids), endpoints)
  {
    if ids != [] {
      ReleasedIsSame(working, ids[..|ids| - 1], endpoints);
    }
  }

  lemma {:induction false} WalkIsSame(c: Context, n: nat)
    requires n <= |c.bindings|
    ensures SameEndpoints(WalkTo(c, n).working, c.endpoints)
  {
    if n > 0 {
      WalkIsSame(c, n - 1);
      TurnIsSame(c, c.bindings[n - 1], WalkTo(c, n - 1));
    }
  }

  lemma TurnIsSame(c: Context, b: Binding, w: Walk)
    requires SameEndpoints(w.working, c.endpoints)
    ensures SameEndpoints(Turn(c, b, w).working, c.endpoints)
  {
    hide Choice, ShouldSelect, Candidates;
    ReleasedIsSame(w.working, b.current, c.endpoints);
    PutOnAllLoads(TakeOffAll(w.working, b.current), b.current);
  }

  // ---------------------------------------------------------------- the whole evaluation

  /** The decision made for a binding, if any; there is at most one. */
  function DecisionFor(id: Id, decisions: seq<Decision>): Option<Decision> {
    if decisions == [] then None
    else if decisions[|decisions| - 1].binding == id then Some(decisions[|decisions| - 1])
    else DecisionFor(id, decisions[..|decisions| - 1])
  }

  lemma {:induction false} DecisionForApplied(b: Binding, decisions: seq<Decision>)
    ensures Applied(b, decisions) ==
            if DecisionFor(b.id, decisions).Some? then DecisionFor(b.id, decisions).value.desired else b.current
    ensures DecisionFor(b.id, decisions).Some? ==> DecisionFor(b.id, decisions).value in decisions
  {
    if decisions != [] {
      DecisionForApplied(b, decisions[..|decisions| - 1]);
    }
  }

  lemma DecisionAppended(id: Id, decisions: seq<Decision>, d: Decision)
    ensures DecisionFor(id, decisions + [d]) == if d.binding == id then Some(d) else DecisionFor(id, decisions)
  {
    assert (decisions + [d])[..|decisions|] == decisions;
  }

  /** A turn decides about its own binding only. */
  lemma OtherTurns(c: Context, b: Binding, w: Walk, id: Id)
    requires SameEndpoints(w.working, c.endpoints) && b.id != id
    ensures DecisionFor(id, Turn(c, b, w).decisions) == DecisionFor(id, w.decisions)
  {
    hide Turn, SameEndpoints, Gets, Moves, Reported, Serving;
    TurnDecides(c, b, w);
    var t := Turn(c, b, w);
    if t.decisions != w.decisions {
      assert t.decisions == w.decisions + [t.decisions[|w.decisions|]];
      DecisionAppended(id, w.decisions, t.decisions[|w.decisions|]);
    }
  }

  lemma {:induction false} NotYetDecided(c: Context, k: nat, n: nat)
    requires DistinctBindings(c.bindings) && n <= k < |c.bindings|
    ensures DecisionFor(c.bindings[k].id, WalkTo(c, n).decisions) == None
  {
    hide Turn;
    if n > 0 {
      NotYetDecided(c, k, n - 1);
      WalkIsSame(c, n - 1);
      OtherTurns(c, c.bindings[n - 1], WalkTo(c, n - 1), c.bindings[k].id);
    }
  }

  lemma {:induction false} DecidedOnce(c: Context, k: nat, n: nat)
    requires DistinctBindings(c.bindings) && k < n <= |c.bindings|
    ensures DecisionFor(c.bindings[k].id, WalkTo(c, n).decisions) ==
        DecisionFor(c.bindings[k].id, WalkTo(c, k + 1).decisions)
    decreases n
  {
    hide Turn;
    if n > k + 1 {
      DecidedOnce(c, k, n - 1);
      WalkIsSame(c, n - 1);
      OtherTurns(c, c.bindings[n - 1], WalkTo(c, n - 1), c.bindings[k].id);
    }
  }

  /** What the evaluation decides for a binding. */
  ghost predicate Outcomes(c: Context, k: nat, d: Option<Decision>)
    requires k < |c.bindings|
  {
    var b, serving := c.bindings[k], Serving(c.bindings[k], c.endpoints);
    if serving == {} then d == Some(Decision(b.id, b.current, b.current, NoHealthyEndpoint))
    else if !Moves(c, b, serving) then d == None
    else
      exists e :: && Gets(c, b, WalkTo(c, k).working, serving, e)
                  && d == if !Reported(c, b, e.id) then None
                          else Some(Decision(b.id, b.current, [e.id], ReasonFor(c, b, serving)))
  }

  /** Each binding gets exactly the decision its case calls for, made with the loads of its turn. */
  lemma EvaluationDecides(c: Context, k: nat)
    requires DistinctBindings(c.bindings) && k < |c.bindings|
    ensures Outcomes(c, k, DecisionFor(c.bindings[k].id, Evaluation(c).decisions))
  {
    hide Turn, SameEndpoints, Gets, Moves, Reported, Serving, DistinctBindings;
    var b, w, t := c.bindings[k], WalkTo(c, k), WalkTo(c, k + 1);
    WalkIsSame(c, k);
    TurnDecides(c, b, w);
    NotYetDecided(c, k, k);
    DecidedOnce(c, k, |c.bindings|);
    if t.decisions != w.decisions {
      assert t.decisions == w.decisions + [t.decisions[|w.decisions|]];
      DecisionAppended(b.id, w.decisions, t.decisions[|w.decisions|]);
    }
  }

  lemma {:induction false} FlagSays(c: Context, n: nat)
    requires n <= |c.bindings|
    ensures WalkTo(c, n).noHealthyEndpoints <==>
              exists k :: 0 <= k < n && Serving(c.bindings[k], c.endpoints) == {}
  {
    hide Turn, Serving, SameEndpoints, Gets, Moves, Reported;
    if n > 0 {
      FlagSays(c, n - 1);
      WalkIsSame(c, n - 1);
      TurnDecides(c, c.bindings[n - 1], WalkTo(c, n - 1));
      assert Serving(c.bindings[n - 1], c.endpoints) == {} ==>
          exists k :: 0 <= k < n && Serving(c.bindings[k], c.endpoints) == {};
    }
  }

  // ---------------------------------------------------------------- main results

  /** After its decision every binding points at an endpoint that serves it, unless none does; then,
      and only then, it is reported so. The flag says whether that happened to anyone. */
  lemma NobodyIsStranded(c: Context, k: nat)
    requires DistinctBindings(c.bindings) && k < |c.bindings|
    ensures var b, ds, serving := c.bindings[k], Evaluation(c).decisions, Serving(c.bindings[k], c.endpoints);
            && (Served(Applied(b, ds), serving) <==> serving != {})
            && (DecisionFor(b.id, ds) == Some(Decision(b.id, b.current, b.current, NoHealthyEndpoint)) <==>
                serving == {})
    ensures Evaluation(c).noHealthyEndpoints <==>
              exists n :: 0 <= n < |c.bindings| && Serving(c.bindings[n], c.endpoints) == {}
  {
    hide Serving, DistinctBindings, WalkTo, Returns;
    var b, ds, serving := c.bindings[k], Evaluation(c).decisions, Serving(c.bindings[k], c.endpoints);
    FlagSays(c, |c.bindings|);
    EvaluationDecides(c, k);
    DecisionForApplied(b, ds);
    if serving != {} && Moves(c, b, serving) {
      var e :| Gets(c, b, WalkTo(c, k).working, serving, e)
               && DecisionFor(b.id, ds) == if !Reported(c, b, e.id) then None
                                           else Some(Decision(b.id, b.current, [e.id], ReasonFor(c, b, serving)));
      assert Applied(b, ds) == [e.id];
      assert Applied(b, ds)[0] in serving;
    }
  }

  /** When an endpoint fails, a binding gets a decision exactly when nothing it points at serves it,
      and is then moved to an endpoint that does, if there is one. */
  lemma FailureMovesExactly(c: Context, k: nat)
    requires c.trigger.Failure? && DistinctBindings(c.bindings) && k < |c.bindings|
    ensures var b, serving := c.bindings[k], Serving(c.bindings[k], c.endpoints);
            var d := DecisionFor(b.id, Evaluation(c).decisions);
            && (d.Some? <==> !Served(b.current, serving))
            && (d.Some? && serving != {} ==>
                  exists id :: id in serving && d == Some(Decision(b.id, b.current, [id], ForFailure)))
  {
    hide Serving, DistinctBindings, WalkTo;
    var b, serving := c.bindings[k], Serving(c.bindings[k], c.endpoints);
    var d := DecisionFor(b.id, Evaluation(c).decisions);
    EvaluationDecides(c, k);
    if serving != {} && Moves(c, b, serving) {
      var e :| Gets(c, b, WalkTo(c, k).working, serving, e)
               && d == if !Reported(c, b, e.id) then None
                       else Some(Decision(b.id, b.current, [e.id], ReasonFor(c, b, serving)));
      assert b.current == [e.id] ==> b.current[0] in serving;
    }
  }

  /** On a recovery under automatic or delayed return, a binding whose original endpoint serves again
      goes back to it; any other moves only as on a failure. */
  lemma RecoveryReturnsExactly(c: Context, k: nat)
    requires c.trigger.Recovery? && DistinctBindings(c.bindings) && k < |c.bindings|
    ensures var b, serving := c.bindings[k], Serving(c.bindings[k], c.endpoints);
            var d := DecisionFor(b.id, Evaluation(c).decisions);
            var back := (c.recovery.Automatic? || c.recovery.Delayed?) && b.original.Some?
                        && b.original.value in serving && b.original.value !in b.current;
            && (back ==> d == Some(Decision(b.id, b.current, [b.original.value], ForRecovery)))
            && (!back ==> (d.Some? <==> !Served(b.current, serving)) && (d.Some? ==> d.value.reason != ForRecovery))
  {
    hide Serving, DistinctBindings, WalkTo;
    var b, serving := c.bindings[k], Serving(c.bindings[k], c.endpoints);
    var d := DecisionFor(b.id, Evaluation(c).decisions);
    EvaluationDecides(c, k);
    if serving != {} && Moves(c, b, serving) {
      var e :| Gets(c, b, WalkTo(c, k).working, serving, e)
               && d == if !Reported(c, b, e.id) then None
                       else Some(Decision(b.id, b.current, [e.id], ReasonFor(c, b, serving)));
      assert b.current == [e.id] ==> b.current[0] in serving;
    }
  }

  /** A repair reports every binding and leaves it at the first of its endpoints that serves it. */
  lemma RepairStaysExactly(c: Context, k: nat)
    requires c.trigger.Repair? && DistinctBindings(c.bindings) && k < |c.bindings|
    ensures var b, serving := c.bindings[k], Serving(c.bindings[k], c.endpoints);
            var d := DecisionFor(b.id, Evaluation(c).decisions);
            && d.Some?
            && (Served(b.current, serving) ==>
                  exists id :: FirstServing(b.current, serving, id)
                               && d == Some(Decision(b.id, b.current, [id], ForRebalance)))
  {
    hide Serving, DistinctBindings, WalkTo;
    var b, serving := c.bindings[k], Serving(c.bindings[k], c.endpoints);
    NobodyServed(b, serving);
    EvaluationDecides(c, k);
    if serving != {} {
      var e :| Gets(c, b, WalkTo(c, k).working, serving, e)
               && DecisionFor(b.id, Evaluation(c).decisions)
                  == if !Reported(c, b, e.id) then None
                     else Some(Decision(b.id, b.current, [e.id], ReasonFor(c, b, serving)));
      assert Served(b.current, serving) ==> FirstServing(b.current, serving, e.id);
    }
  }

  /** Under ordered selection every binding that is selected for ends at the endpoint that comes first
      by priority and id among those that serve it. */
  lemma OrderedTakesTheFirst(c: Context, k: nat)
    requires c.mode.Ordered? && DistinctBindings(c.bindings) && k < |c.bindings|
    requires var b, serving := c.bindings[k], Serving(c.bindings[k], c.endpoints);
             && serving != {} && !Returns(c, b, serving) && !(c.trigger.Repair? && Served(b.current, serving))
             && Moves(c, b, serving)
    ensures exists n :: && 0 <= n < |c.endpoints| && Serves(c.bindings[k], c.endpoints[n])
                        && Applied(c.bindings[k], Evaluation(c).decisions) == [c.endpoints[n].id]
                        && FirstAmongServing(c.bindings[k], c.endpoints, n)
  {
    hide Serving, DistinctBindings, WalkTo, Returns, Moves, Served;
    var b, serving, ds := c.bindings[k], Serving(c.bindings[k], c.endpoints), Evaluation(c).decisions;
    EvaluationDecides(c, k);
    DecisionForApplied(b, ds);
    var e :| Gets(c, b, WalkTo(c, k).working, serving, e)
             && DecisionFor(b.id, ds) == if !Reported(c, b, e.id) then None
                                         else Some(Decision(b.id, b.current, [e.id], ReasonFor(c, b, serving)));
    WalkIsSame(c, k);
    ReleasedIsSame(WalkTo(c, k).working, b.current, c.endpoints);
    ForemostServes(b, TakeOffAll(WalkTo(c, k).working, b.current), c.endpoints, e);
    assert Applied(b, ds) == [e.id];
  }

  predicate FirstAmongServing(b: Binding, endpoints: seq<Endpoint>, n: nat)
    requires n < |endpoints|
  {
    forall m :: 0 <= m < |endpoints| && Serves(b, endpoints[m]) ==>
      || endpoints[n].priority < endpoints[m].priority
      || (endpoints[n].priority == endpoints[m].priority && endpoints[n].id <= endpoints[m].id)
  }

  lemma ForemostServes(b: Binding, working: seq<Endpoint>, endpoints: seq<Endpoint>, e: Endpoint)
    requires SameEndpoints(working, endpoints) && e in Candidates(b, working) && Foremost(e, Candidates(b, working))
    ensures exists n :: && 0 <= n < |endpoints| && endpoints[n].id == e.id && Serves(b, endpoints[n])
                        && FirstAmongServing(b, endpoints, n)
  {
    hide Candidates;
    CandidatesAreSuited(b, working);
    var candidates := Candidates(b, working);
    var n :| 0 <= n < |working| && working[n] == e;
    assert Serves(b, endpoints[n]);
    forall m | 0 <= m < |endpoints| && Serves(b, endpoints[m])
      ensures || endpoints[n].priority < endpoints[m].priority
              || (endpoints[n].priority == endpoints[m].priority && endpoints[n].id <= endpoints[m].id)
    {
      assert working[m] in working && Suits(b, working[m]);
      var i :| 0 <= i < |candidates| && candidates[i] == working[m];
    }
  }

  // ---------------------------------------------------------------- bookkeeping of a turn

  /** A selection moves the cursor of its own family and candidate set in round robin, and no cursor
      is moved otherwise. */
  lemma CursorMoves(c: Context, b: Binding, w: Walk)
    requires SameEndpoints(w.working, c.endpoints)
    ensures var t, key := Turn(c, b, w), CursorKey(b.family, Serving(b, c.endpoints));
            && (t.cursors == w.cursors
                || (c.mode.RoundRobin? && exists id ::
                    id in Serving(b, c.endpoints) && t.cursors == w.cursors[key := id]))
            && (c.mode.RoundRobin? && Serving(b, c.endpoints) != {} && Moves(c, b, Serving(b, c.endpoints)) ==>
                  key in t.cursors && t.cursors[key] in Serving(b, c.endpoints))
  {
    hide Candidates, TakeOffAll, PutOnAll, PutOn, Ids, Choice, Serving, Chosen, SameEndpoints;
    var serving, released := Serving(b, c.endpoints), TakeOffAll(w.working, b.current);
    var candidates, now := Candidates(b, w.working), Candidates(b, released);
    ReleasedIsSame(w.working, b.current, c.endpoints);
    CandidatesServe(b, w.working, c.endpoints);
    CandidatesServe(b, released, c.endpoints);
    assert KeyOf(b, candidates) == CursorKey(b.family, serving);
    var key := KeyOf(b, candidates);
    var cursor := if key in w.cursors then Some(w.cursors[key]) else c.cursor;
    ChoiceIs(c, b, now, cursor);
    NobodyServed(b, serving);
    assert CurrentHealthy(b, candidates) == Served(b.current, serving);
    assert RecoversOriginal(c, b, candidates) == Returns(c, b, serving);
    if ShouldSelect(c, b, candidates) {
      var choice := Choice(c, b, now, RecoversOriginal(c, b, candidates), CurrentHealthy(b, candidates), cursor);
      if choice.Some? {
        assert choice.value.id in serving;
      }
    }
  }

  predicate LoadsNatural(working: seq<Endpoint>) {
    forall i :: 0 <= i < |working| ==> working[i].load >= 0
  }

  lemma {:induction false} ReleaseKeepsNatural(working: seq<Endpoint>, ids: seq<Id>)
    requires LoadsNatural(working)
    ensures LoadsNatural(TakeOffAll(working, ids)) && LoadsNatural(PutOnAll(working, ids))
  {
    if ids != [] {
      ReleaseKeepsNatural(working, ids[..|ids| - 1]);
    }
  }

  lemma TurnKeepsNatural(c: Context, b: Binding, w: Walk)
    requires LoadsNatural(w.working)
    ensures LoadsNatural(Turn(c, b, w).working)
  {
    ReleaseKeepsNatural(w.working, b.current);
    ReleaseKeepsNatural(TakeOffAll(w.working, b.current), b.current);
    hide Candidates, ShouldSelect, Choice, KeyOf, RecoversOriginal, CurrentHealthy, TakeOffAll, PutOnAll;
  }

  /** No load falls below zero, even when the given loads were not the true counts. */
  lemma {:induction false} LoadsStayNatural(c: Context, n: nat)
    requires LoadsNatural(c.endpoints) && n <= |c.bindings|
    ensures LoadsNatural(WalkTo(c, n).working)
  {
    if n > 0 {
      hide Turn;
      LoadsStayNatural(c, n - 1);
      TurnKeepsNatural(c, c.bindings[n - 1], WalkTo(c, n - 1));
    }
  }
}
