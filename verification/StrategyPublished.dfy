/** What the healthy-set strategy tells each binding to publish, and when. */
module StrategyPublished {
  import opened Wrappers
  import opened Strategy
  import opened StrategyBalance
  import opened StrategyHealthySet
  import opened StrategyFailover

  function KeptIds(ids: set<Id>, among: seq<Id>): set<Id> {
    set id | id in ids && id in among
  }

  /** What the healthy-set strategy ought to publish. */
  function Wanted(c: Context, b: Binding): set<Id> {
    var serving := Serving(b, c.endpoints);
    var kept := KeptIds(serving, b.current);
    if c.trigger.Recovery? && (c.recovery == KeepCurrent || c.recovery == Manual) && kept != {} then kept else serving
  }

  lemma WithoutFirst(a: seq<Id>)
    requires a != []
    ensures multiset(a[1..]) == multiset(a) - multiset{a[0]}
  {
    assert a == [a[0]] + a[1..];
  }

  lemma SameFirst(a: seq<Id>, b: seq<Id>)
    requires a != [] && multiset(a) == multiset(b)
    requires forall i :: 0 < i < |a| ==> a[i - 1] <= a[i]
    requires forall i :: 0 < i < |b| ==> b[i - 1] <= b[i]
    ensures b != [] && a[0] == b[0]
  {
    assert a[0] in multiset(b) && a[0] in b;
    FirstIsLeast(a);
    FirstIsLeast(b);
    assert b[0] in multiset(b) && b[0] in a;
  }

  /** A sorted list is known by its members. */
  lemma {:induction false} SortedAreEqual(a: seq<Id>, b: seq<Id>)
    requires multiset(a) == multiset(b)
    requires forall i :: 0 < i < |a| ==> a[i - 1] <= a[i]
    requires forall i :: 0 < i < |b| ==> b[i - 1] <= b[i]
    ensures a == b
  {
    if a == [] {
      assert |b| == |multiset(b)| == |multiset(a)| == 0;
    } else {
      SameFirst(a, b);
      WithoutFirst(a);
      WithoutFirst(b);
      SortedAreEqual(a[1..], b[1..]);
      assert a == [a[0]] + a[1..] && b == [b[0]] + b[1..];
    }
  }

  lemma {:induction false} FirstIsLeast(a: seq<Id>)
    requires a != [] && forall i :: 0 < i < |a| ==> a[i - 1] <= a[i]
    ensures forall id :: id in a ==> a[0] <= id
  {
    if |a| > 1 {
      FirstIsLeast(a[1..]);
      forall id | id in a ensures a[0] <= id {
        if id != a[0] {
          assert id in a[1..];
        }
      }
    }
  }

  lemma {:induction false} IdsAreDistinct(b: Binding, endpoints: seq<Endpoint>)
    requires DistinctEndpoints(endpoints)
    ensures DistinctEndpoints(Candidates(b, endpoints))
  {
    if endpoints != [] {
      var n := |endpoints| - 1;
      IdsAreDistinct(b, endpoints[..n]);
      CandidatesAreSuited(b, endpoints[..n]);
      var earlier := Candidates(b, endpoints[..n]);
      forall i | 0 <= i < |earlier| ensures earlier[i].id != endpoints[n].id {
        assert earlier[i] in earlier;
        var k :| 0 <= k < n && endpoints[..n][k] == earlier[i];
      }
    }
  }

  lemma IdsOfRest(endpoints: seq<Endpoint>)
    requires endpoints != [] && DistinctEndpoints(endpoints)
    ensures Ids(endpoints) == Ids(endpoints[1..]) + {endpoints[0].id} && endpoints[0].id !in Ids(endpoints[1..])
  {
    forall i | 0 < i < |endpoints| ensures endpoints[i].id in Ids(endpoints[1..]) {
      assert endpoints[i] == endpoints[1..][i - 1];
    }
  }

  lemma KeptOfRest(ids: set<Id>, first: Id, among: seq<Id>)
    requires first !in ids
    ensures KeptIds(ids + {first}, among) == KeptIds(ids, among) + if first in among then {first} else {}
  {
  }

  lemma {:induction false} ListIsSet(endpoints: seq<Endpoint>)
    requires DistinctEndpoints(endpoints)
    ensures multiset(IdsOf(endpoints)) == multiset(Ids(endpoints))
  {
    if endpoints == [] {
      assert Ids(endpoints) == {};
    } else {
      IdsOfRest(endpoints);
      ListIsSet(endpoints[1..]);
      assert multiset(IdsOf(endpoints)) == multiset{endpoints[0].id} + multiset(IdsOf(endpoints[1..]));
    }
  }

  lemma {:induction false} KeptListIsSet(endpoints: seq<Endpoint>, ids: seq<Id>)
    requires DistinctEndpoints(endpoints)
    ensures multiset(IdsOf(Among(endpoints, ids))) == multiset(KeptIds(Ids(endpoints), ids))
  {
    if endpoints == [] {
      assert Ids(endpoints) == {};
    } else {
      var first, rest := endpoints[0], Among(endpoints[1..], ids);
      IdsOfRest(endpoints);
      KeptListIsSet(endpoints[1..], ids);
      KeptOfRest(Ids(endpoints[1..]), first.id, ids);
      hide Ids, KeptIds;
      if first.id in ids {
        assert ([first] + rest)[1..] == rest;
        assert Among(endpoints, ids) == [first] + rest;
        assert IdsOf([first] + rest) == [first.id] + IdsOf(rest);
      } else {
        assert Among(endpoints, ids) == rest;
      }
    }
  }

  lemma DesiredIsWanted(c: Context, b: Binding)
    requires DistinctEndpoints(c.endpoints)
    ensures multiset(Desired(c, b)) == multiset(Wanted(c, b))
    ensures forall i :: 0 < i < |Desired(c, b)| ==> Desired(c, b)[i - 1] <= Desired(c, b)[i]
  {
    hide Candidates, Serving, IdsOf, Among, SortIds, Ids, KeptIds;
    var available := Candidates(b, c.endpoints);
    var kept := Among(available, b.current);
    assert SameEndpoints(c.endpoints, c.endpoints);
    CandidatesServe(b, c.endpoints, c.endpoints);
    IdsAreDistinct(b, c.endpoints);
    ListIsSet(available);
    KeptListIsSet(available, b.current);
    IdsOfMembers(kept);
    assert |kept| == |multiset(IdsOf(kept))| == |KeptIds(Ids(available), b.current)|;
    SortSorts(IdsOf(kept));
    SortSorts(IdsOf(available));
  }

  /** A binding is told to publish exactly the endpoints that serve it, or on a conservative recovery
      those of its own that do, unless it does already and nothing forces a decision. The reason says
      why, and a binding nobody serves is reported. */
  lemma HealthySetDecidesExactly(c: Context, b: Binding)
    requires DistinctEndpoints(c.endpoints)
    ensures var d, wanted := HealthySetDecision(c, b), Wanted(c, b);
            && (wanted == {} ==>
                  d.Some? && d.value.reason == NoHealthyEndpoint && d.value.desired == d.value.previous)
            && (wanted != {} ==>
                  (d.Some? <==>
                   c.trigger.Configuration? || c.trigger.Repair? || multiset(b.current) != multiset(wanted)))
            && (wanted != {} && d.Some? ==>
                  && multiset(d.value.desired) == multiset(wanted)
                  && d.value.reason == (if c.trigger.Configuration? || c.trigger.Repair? then ForRebalance
                                        else if |wanted| > |b.current| then ForRecovery
                                        else ForFailure))
            && (d.Some? ==> d.value.binding == b.id && multiset(d.value.previous) == multiset(b.current))
  {
    hide Desired, Wanted, SortIds;
    DesiredIsWanted(c, b);
    SortSorts(b.current);
    var desired, current, wanted := Desired(c, b), SortIds(b.current), Wanted(c, b);
    assert |multiset(desired)| == |desired| == |wanted|;
    assert |multiset(current)| == |current| == |multiset(b.current)| == |b.current|;
    if multiset(b.current) == multiset(wanted) {
      SortedAreEqual(current, desired);
    }
  }
}
