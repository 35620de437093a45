/** The healthy-set strategy publishes every healthy endpoint of a binding. */
module StrategyHealthySet {
  import opened Wrappers
  import opened Strategy

  function InsertId(id: Id, sorted: seq<Id>): seq<Id> {
    if sorted == [] || id <= sorted[0] then [id] + sorted else [sorted[0]] + InsertId(id, sorted[1..])
  }

  function SortIds(ids: seq<Id>): seq<Id> {
    if ids == [] then [] else InsertId(ids[0], SortIds(ids[1..]))
  }

  function IdsOf(endpoints: seq<Endpoint>): seq<Id> {
    if endpoints == [] then [] else [endpoints[0].id] + IdsOf(endpoints[1..])
  }

  function Among(endpoints: seq<Endpoint>, ids: seq<Id>): seq<Endpoint> {
    if endpoints == [] then []
    else (if endpoints[0].id in ids then [endpoints[0]] else []) + Among(endpoints[1..], ids)
  }

  predicate Preserves(c: Context) {
    c.trigger.Recovery? && (c.recovery.KeepCurrent? || c.recovery.Manual?)
  }

  predicate Forced(c: Context) { c.trigger.Configuration? || c.trigger.Repair? }

  function Desired(c: Context, b: Binding): seq<Id> {
    var available := Candidates(b, c.endpoints);
    var kept := Among(available, b.current);
    SortIds(IdsOf(if Preserves(c) && kept != [] then kept else available))
  }

  function HealthySetDecision(c: Context, b: Binding): Option<Decision> {
    var desired := Desired(c, b);
    var current := SortIds(b.current);
    if desired == [] then Some(Decision(b.id, current, current, NoHealthyEndpoint))
    else if !Forced(c) && current == desired then None
    else
      Some(Decision(b.id, current, desired,
                    if Forced(c) then ForRebalance
                    else if |desired| > |current| then ForRecovery else ForFailure))
  }

  function HealthySetEvaluation(c: Context, n: nat): (seq<Decision>, bool)
    requires n <= |c.bindings|
  {
    if n == 0 then ([], false)
    else
      var (earlier, none) := HealthySetEvaluation(c, n - 1);
      var b := c.bindings[n - 1];
      match HealthySetDecision(c, b)
      case None => (earlier, none)
      case Some(d) => (earlier + [d], none || d.reason == NoHealthyEndpoint)
  }

  lemma {:induction false} SortSorts(ids: seq<Id>)
    ensures multiset(SortIds(ids)) == multiset(ids)
    ensures forall i :: 0 < i < |SortIds(ids)| ==> SortIds(ids)[i - 1] <= SortIds(ids)[i]
  {
    if ids != [] {
      SortSorts(ids[1..]);
      InsertKeepsSorted(ids[0], SortIds(ids[1..]));
      assert ids == [ids[0]] + ids[1..];
    }
  }

  lemma {:induction false} SortedIsFixed(ids: seq<Id>)
    ensures SortIds(SortIds(ids)) == SortIds(ids)
    ensures multiset(SortIds(ids)) == multiset(ids)
  {
    SortSorts(ids);
    SortOfSorted(SortIds(ids));
  }

  lemma {:induction false} InsertKeepsSorted(id: Id, sorted: seq<Id>)
    requires forall i :: 0 < i < |sorted| ==> sorted[i - 1] <= sorted[i]
    ensures var all := InsertId(id, sorted);
            && multiset(all) == multiset(sorted) + multiset{id}
            && (forall i :: 0 < i < |all| ==> all[i - 1] <= all[i])
            && all[0] == if sorted == [] || id <= sorted[0] then id else sorted[0]
  {
    if sorted != [] && id > sorted[0] {
      InsertKeepsSorted(id, sorted[1..]);
      assert sorted == [sorted[0]] + sorted[1..];
    }
  }

  lemma {:induction false} SortOfSorted(sorted: seq<Id>)
    requires forall i :: 0 < i < |sorted| ==> sorted[i - 1] <= sorted[i]
    ensures SortIds(sorted) == sorted
  {
    if |sorted| > 1 {
      SortOfSorted(sorted[1..]);
    }
  }

  lemma {:induction false} IdsOfMembers(endpoints: seq<Endpoint>)
    ensures forall id :: id in IdsOf(endpoints) <==> exists i :: 0 <= i < |endpoints| && endpoints[i].id == id
    ensures |IdsOf(endpoints)| == |endpoints|
  {
    if endpoints != [] {
      IdsOfMembers(endpoints[1..]);
      forall i | 0 < i < |endpoints| ensures endpoints[i] == endpoints[1..][i - 1] {
      }
      forall id | exists i :: 0 <= i < |endpoints| && endpoints[i].id == id ensures id in IdsOf(endpoints) {
        var i :| 0 <= i < |endpoints| && endpoints[i].id == id;
        if i > 0 {
          assert endpoints[1..][i - 1].id == id;
        }
      }
    }
  }

  /** Filtering by the ids of what a filter kept keeps the same. */
  lemma {:induction false} AmongAgain(endpoints: seq<Endpoint>, ids: seq<Id>, again: seq<Id>)
    requires forall i :: 0 <= i < |endpoints| ==> (endpoints[i].id in again <==> endpoints[i].id in ids)
    ensures Among(endpoints, again) == Among(endpoints, ids)
  {
    if endpoints != [] {
      forall i | 0 <= i < |endpoints| - 1 ensures endpoints[1..][i].id in again <==> endpoints[1..][i].id in ids {
        assert endpoints[1..][i] == endpoints[i + 1];
      }
      AmongAgain(endpoints[1..], ids, again);
    }
  }

  lemma {:induction false} AmongMembers(endpoints: seq<Endpoint>, ids: seq<Id>)
    ensures forall id :: id in IdsOf(Among(endpoints, ids)) <==> id in IdsOf(endpoints) && id in ids
  {
    if endpoints != [] {
      AmongMembers(endpoints[1..], ids);
      var rest := Among(endpoints[1..], ids);
      if endpoints[0].id in ids {
        assert ([endpoints[0]] + rest)[1..] == rest;
      } else {
        assert [] + rest == rest;
      }
    }
  }

  lemma {:induction false} SortMembers(ids: seq<Id>)
    ensures forall id :: id in SortIds(ids) <==> id in ids
  {
    SortedIsFixed(ids);
    forall id ensures id in SortIds(ids) <==> id in ids {
      assert id in SortIds(ids) <==> id in multiset(SortIds(ids));
      assert id in ids <==> id in multiset(ids);
    }
  }

  /** What the strategy asks for: every healthy endpoint, or on a conservative recovery the
      healthy current ones when there are any. */
  lemma {:induction false} DesiredIsHealthy(c: Context, b: Binding, id: Id)
    ensures var available := IdsOf(Candidates(b, c.endpoints));
            id in Desired(c, b) <==>
            id in available && (Preserves(c) && (exists x :: x in available && x in b.current) ==> id in b.current)
  {
    var candidates := Candidates(b, c.endpoints);
    var kept := Among(candidates, b.current);
    AmongMembers(candidates, b.current);
    IdsOfMembers(kept);
    SortMembers(IdsOf(candidates));
    SortMembers(IdsOf(kept));
    if kept != [] {
      assert kept[0].id in IdsOf(kept);
    }
  }

  /** Once a decision is applied, the same evaluation has nothing more to say about the
      binding, except that it keeps reporting the absence of healthy endpoints. */
  lemma AppliedDecisionIsStable(c: Context, b: Binding)
    requires !Forced(c)
    ensures var first := HealthySetDecision(c, b);
            var after := if first.Some? then b.(current := first.value.desired) else b;
            HealthySetDecision(c, after) ==
            (if Desired(c, b) == [] then Some(Decision(b.id, SortIds(b.current), SortIds(b.current), NoHealthyEndpoint))
             else None)
  {
    var first := HealthySetDecision(c, b);
    if first.Some? {
      var after := b.(current := first.value.desired);
      SortedIsFixed(b.current);
      CandidatesIgnoreCurrent(b, after, c.endpoints);
      var candidates := Candidates(b, c.endpoints);
      var kept := Among(candidates, b.current);
      var chosen := if Preserves(c) && kept != [] then kept else candidates;
      SortedIsFixed(IdsOf(chosen));
      SortMembers(IdsOf(chosen));
      SortMembers(b.current);
      IdsOfMembers(candidates);
      AmongMembers(candidates, b.current);
      if Desired(c, b) == [] {
        AmongAgain(candidates, b.current, after.current);
        assert IdsOf(chosen) == [];
      } else {
        KeptAgain(candidates, b.current, chosen);
        assert Among(candidates, after.current) == chosen;
      }
    }
  }

  lemma {:induction false} KeptAgain(candidates: seq<Endpoint>, current: seq<Id>, chosen: seq<Endpoint>)
    requires chosen == candidates || chosen == Among(candidates, current)
    ensures Among(candidates, SortIds(IdsOf(chosen))) == chosen
  {
    SortMembers(IdsOf(chosen));
    IdsOfMembers(candidates);
    AmongMembers(candidates, current);
    if chosen == candidates {
      AmongAll(candidates, SortIds(IdsOf(chosen)));
    } else {
      AmongAgain(candidates, current, SortIds(IdsOf(chosen)));
    }
  }

  lemma {:induction false} AmongAll(endpoints: seq<Endpoint>, ids: seq<Id>)
    requires forall i :: 0 <= i < |endpoints| ==> endpoints[i].id in ids
    ensures Among(endpoints, ids) == endpoints
  {
    if endpoints != [] {
      AmongAll(endpoints[1..], ids);
    }
  }

  lemma {:induction false} CandidatesIgnoreCurrent(a: Binding, b: Binding, endpoints: seq<Endpoint>)
    requires a.family == b.family && a.states == b.states
    ensures Candidates(a, endpoints) == Candidates(b, endpoints)
  {
    if endpoints != [] {
      CandidatesIgnoreCurrent(a, b, endpoints[..|endpoints| - 1]);
    }
  }

  function AfterDecision(c: Context, b: Binding): Binding {
    match HealthySetDecision(c, b)
    case None => b
    case Some(d) => b.(current := d.desired)
  }

  function AfterEvaluation(c: Context): Context {
    c.(bindings := seq(|c.bindings|, i requires 0 <= i < |c.bindings| => AfterDecision(c, c.bindings[i])))
  }

  lemma SecondDecision(c: Context, b: Binding)
    requires !Forced(c)
    ensures var again := HealthySetDecision(AfterEvaluation(c), AfterDecision(c, b));
            var first := HealthySetDecision(c, b);
            && (again.Some? ==> again.value.reason == NoHealthyEndpoint && again.value.previous == again.value.desired)
            && (again.Some? <==> first.Some? && first.value.reason == NoHealthyEndpoint)
  {
    AppliedDecisionIsStable(c, b);
    assert HealthySetDecision(AfterEvaluation(c), AfterDecision(c, b)) == HealthySetDecision(c, AfterDecision(c, b));
  }

  /** Evaluating again after applying everything only repeats the missing-endpoint reports. */
  lemma {:induction false} SecondEvaluationOnlyReports(c: Context, n: nat)
    requires !Forced(c) && n <= |c.bindings|
    ensures var again := HealthySetEvaluation(AfterEvaluation(c), n);
            && (forall d :: d in again.0 ==> d.reason == NoHealthyEndpoint && d.previous == d.desired)
            && again.1 == HealthySetEvaluation(c, n).1
  {
    hide HealthySetDecision, AfterDecision;
    if n > 0 {
      SecondEvaluationOnlyReports(c, n - 1);
      SecondDecision(c, c.bindings[n - 1]);
    }
  }
}
