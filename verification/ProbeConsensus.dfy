/** One probe round: the members' votes become a decision. */
module ProbeConsensus {
  import opened Wrappers

  type ProbeId = string
  datatype Outcome = Success | Failure | Unavailable
  datatype Decision = DecidedSuccess | DecidedFailure | Unknown
  datatype Mode = Any | Majority | All | AtLeast | Specified

  /** `failureVotes` matters only to `AtLeast`, `specifiedProbe` only to `Specified`. */
  datatype Policy = Policy(mode: Mode, minimumValid: int, failureVotes: Option<int>, specifiedProbe: Option<ProbeId>)

  datatype PolicyError = MembersNotASet | MinimumValidOutOfRange | FailureVotesOutOfRange | SpecifiedNotAMember

  type Votes = map<ProbeId, Outcome>

  predicate Distinct(members: seq<ProbeId>) {
    forall i, j :: 0 <= i < j < |members| ==> members[i] != members[j]
  }

  function PolicyFault(members: seq<ProbeId>, policy: Policy): Option<PolicyError> {
    var n := |members|;
    if n == 0 || !Distinct(members) then Some(MembersNotASet)
    else if !(1 <= policy.minimumValid <= n) then Some(MinimumValidOutOfRange)
    else if policy.mode.AtLeast? && (policy.failureVotes.None? || !(1 <= policy.failureVotes.value <= n)) then
      Some(FailureVotesOutOfRange)
    else if policy.mode.Specified?
            && (policy.specifiedProbe.None? || policy.specifiedProbe.value == ""
                || policy.specifiedProbe.value !in members) then
      Some(SpecifiedNotAMember)
    else None
  }

  /** A policy is accepted exactly when its members are a set and its bounds lie within it; the mode
      decides which of its fields are looked at. */
  lemma PolicyIsAcceptedExactly(members: seq<ProbeId>, policy: Policy)
    ensures PolicyFault(members, policy) == None <==>
            && |members| > 0 && Distinct(members)
            && 1 <= policy.minimumValid && policy.minimumValid <= |members|
            && (policy.mode == AtLeast ==>
                  policy.failureVotes.Some? && 0 < policy.failureVotes.value <= |members|)
            && (policy.mode == Specified ==>
                  policy.specifiedProbe.Some? && policy.specifiedProbe.value in members
                  && |policy.specifiedProbe.value| > 0)
    ensures PolicyFault(members, policy) == Some(FailureVotesOutOfRange) ==> policy.mode == AtLeast
    ensures PolicyFault(members, policy) == Some(SpecifiedNotAMember) ==> policy.mode == Specified
  {
  }

  /** How many of the first `n` members voted `o`. */
  function Count(members: seq<ProbeId>, votes: Votes, o: Outcome, n: nat): nat
    requires n <= |members|
  {
    if n == 0 then 0
    else Count(members, votes, o, n - 1) + if members[n - 1] in votes && votes[members[n - 1]] == o then 1 else 0
  }

  function Total(members: seq<ProbeId>, votes: Votes, o: Outcome): nat {
    Count(members, votes, o, |members|)
  }

  function RequiredFailureVotes(policy: Policy, n: nat): int
    requires !policy.mode.Specified? && (policy.mode.AtLeast? ==> policy.failureVotes.Some?)
  {
    match policy.mode
    case Any => 1
    case Majority => n / 2 + 1
    case All => n
    case AtLeast => policy.failureVotes.value
  }

  function Decide(members: seq<ProbeId>, votes: Votes, policy: Policy): Decision
    requires PolicyFault(members, policy).None?
  {
    var failures, successes := Total(members, votes, Failure), Total(members, votes, Success);
    if failures + successes < policy.minimumValid then Unknown
    else if policy.mode.Specified? then
      var probe := policy.specifiedProbe.value;
      if probe in votes && votes[probe].Success? then DecidedSuccess
      else if probe in votes && votes[probe].Failure? then DecidedFailure
      else Unknown
    else
      var needed := RequiredFailureVotes(policy, |members|);
      if failures >= needed then DecidedFailure
      else if successes > |members| - needed then DecidedSuccess
      else Unknown
  }

  function EvaluateProbeRound(members: seq<ProbeId>, votes: Votes, policy: Policy): Result<Decision, PolicyError> {
    match PolicyFault(members, policy)
    case Some(e) => Err(e)
    case None => Ok(Decide(members, votes, policy))
  }

  // ---------------------------------------------------------------- finality

  predicate Valid(votes: Votes, member: ProbeId) {
    member in votes && !votes[member].Unavailable?
  }

  /** `after` keeps every valid vote of `before`; missing and unavailable ones may fill in. */
  predicate Completes(members: seq<ProbeId>, before: Votes, after: Votes) {
    forall m :: m in members && Valid(before, m) ==> m in after && after[m] == before[m]
  }

  predicate Complete(members: seq<ProbeId>, votes: Votes) {
    forall m :: m in members ==> Valid(votes, m)
  }

  /** Every undecided member votes `o`. */
  function FillWith(members: seq<ProbeId>, votes: Votes, o: Outcome): Votes {
    map m | m in members :: if Valid(votes, m) then votes[m] else o
  }

  lemma {:induction false} CountsGrow(members: seq<ProbeId>, before: Votes, after: Votes, o: Outcome, n: nat)
    requires n <= |members| && Completes(members, before, after) && !o.Unavailable?
    ensures Count(members, before, o, n) <= Count(members, after, o, n)
  {
    if n > 0 {
      CountsGrow(members, before, after, o, n - 1);
      assert members[n - 1] in members;
    }
  }

  lemma {:induction false} CountsWithin(members: seq<ProbeId>, votes: Votes, n: nat)
    requires n <= |members|
    ensures Count(members, votes, Success, n) + Count(members, votes, Failure, n) <= n
    ensures Complete(members, votes) ==> Count(members, votes, Success, n) + Count(members, votes, Failure, n) == n
  {
    if n > 0 {
      CountsWithin(members, votes, n - 1);
      assert members[n - 1] in members;
    }
  }

  lemma {:induction false} FilledCounts(members: seq<ProbeId>, votes: Votes, o: Outcome, n: nat)
    requires n <= |members| && !o.Unavailable?
    ensures var other := if o.Success? then Failure else Success;
            Count(members, FillWith(members, votes, o), other, n) == Count(members, votes, other, n)
  {
    if n > 0 {
      FilledCounts(members, votes, o, n - 1);
      assert members[n - 1] in members;
    }
  }

  /** A decision, once known, survives whatever the outstanding members report. */
  lemma DecisionIsFinal(members: seq<ProbeId>, before: Votes, after: Votes, policy: Policy)
    requires PolicyFault(members, policy).None? && Completes(members, before, after)
    requires !Decide(members, before, policy).Unknown?
    ensures Decide(members, after, policy) == Decide(members, before, policy)
  {
    CountsGrow(members, before, after, Success, |members|);
    CountsGrow(members, before, after, Failure, |members|);
    CountsWithin(members, after, |members|);
  }

  lemma CompleteRoundDecides(members: seq<ProbeId>, votes: Votes, policy: Policy)
    requires PolicyFault(members, policy).None? && Complete(members, votes)
    ensures !Decide(members, votes, policy).Unknown?
  {
    CountsWithin(members, votes, |members|);
    assert policy.mode.Specified? ==> Valid(votes, policy.specifiedProbe.value);
  }

  /** Unanimity of all complete continuations, the independent reading of a known decision. */
  ghost predicate Forced(members: seq<ProbeId>, votes: Votes, policy: Policy, d: Decision)
    requires PolicyFault(members, policy).None?
  {
    forall full: Votes :: Completes(members, votes, full) && Complete(members, full) ==>
        Decide(members, full, policy) == d
  }

  /** A round decides as soon as it can: it is known exactly when enough members gave a valid
      vote and every complete continuation would decide the same. */
  lemma DecidesAsSoonAsForced(members: seq<ProbeId>, votes: Votes, policy: Policy, d: Decision)
    requires PolicyFault(members, policy).None? && !d.Unknown?
    ensures Decide(members, votes, policy) == d <==>
              && Total(members, votes, Success) + Total(members, votes, Failure) >= policy.minimumValid
              && Forced(members, votes, policy, d)
  {
    if Decide(members, votes, policy) == d {
      forall full: Votes | Completes(members, votes, full) && Complete(members, full)
        ensures Decide(members, full, policy) == d
      {
        DecisionIsFinal(members, votes, full, policy);
      }
    } else if Total(members, votes, Success) + Total(members, votes, Failure) >= policy.minimumValid {
      var doubt := if d.DecidedFailure? then Success else Failure;
      var full := FillWith(members, votes, doubt);
      assert Completes(members, votes, full) && Complete(members, full);
      FilledCounts(members, votes, doubt, |members|);
      CountsWithin(members, full, |members|);
      CountsWithin(members, votes, |members|);
      assert Decide(members, full, policy) != d;
    }
  }

  // ---------------------------------------------------------------- order of members

  function Voters(members: seq<ProbeId>, votes: Votes, o: Outcome): set<ProbeId> {
    set m | m in members && m in votes && votes[m] == o
  }

  function VotersTo(members: seq<ProbeId>, votes: Votes, o: Outcome, n: nat): set<ProbeId>
    requires n <= |members|
  {
    if n == 0 then {}
    else
      var m := members[n - 1];
      var before := VotersTo(members, votes, o, n - 1);
      if m in votes && votes[m] == o then before + {m} else before
  }

  lemma {:induction false} VotersAreMembers(members: seq<ProbeId>, votes: Votes, o: Outcome, n: nat, m: ProbeId)
    requires n <= |members|
    ensures m in VotersTo(members, votes, o, n) <==>
        m in votes && votes[m] == o && exists i :: 0 <= i < n && members[i] == m
  {
    if n > 0 {
      VotersAreMembers(members, votes, o, n - 1, m);
    }
  }

  lemma {:induction false} CountIsCardinality(members: seq<ProbeId>, votes: Votes, o: Outcome, n: nat)
    requires n <= |members| && Distinct(members)
    ensures Count(members, votes, o, n) == |VotersTo(members, votes, o, n)|
  {
    if n > 0 {
      CountIsCardinality(members, votes, o, n - 1);
      var m, before := members[n - 1], VotersTo(members, votes, o, n - 1);
      assert m !in before by {
        VotersAreMembers(members, votes, o, n - 1, m);
      }
    }
  }

  /** The tally is the number of distinct members that cast the vote. */
  lemma TotalIsCardinality(members: seq<ProbeId>, votes: Votes, o: Outcome)
    requires Distinct(members)
    ensures Total(members, votes, o) == |Voters(members, votes, o)|
  {
    CountIsCardinality(members, votes, o, |members|);
    forall m ensures m in VotersTo(members, votes, o, |members|) <==> m in Voters(members, votes, o) {
      VotersAreMembers(members, votes, o, |members|, m);
    }
    assert VotersTo(members, votes, o, |members|) == Voters(members, votes, o);
  }

  lemma RepeatShows(s: seq<ProbeId>, i: nat, j: nat)
    requires i < j < |s| && s[i] == s[j]
    ensures multiset(s)[s[i]] >= 2
  {
    assert s == s[..j] + [s[j]] + s[j + 1..];
    assert s[i] in multiset(s[..j]);
  }

  lemma {:induction false} OnceEach(s: seq<ProbeId>, m: ProbeId)
    requires Distinct(s)
    ensures multiset(s)[m] <= 1
  {
    if s != [] {
      var front, last := s[..|s| - 1], s[|s| - 1];
      OnceEach(front, m);
      assert s == front + [last];
      assert last !in front;
    }
  }

  lemma PermutedIsDistinct(a: seq<ProbeId>, b: seq<ProbeId>)
    requires multiset(a) == multiset(b) && Distinct(a)
    ensures Distinct(b)
  {
    forall i, j | 0 <= i < j < |b| ensures b[i] != b[j] {
      OnceEach(a, b[i]);
      if b[i] == b[j] {
        RepeatShows(b, i, j);
      }
    }
  }

  /** The order in which members are listed decides nothing, not even which error is thrown. */
  lemma OrderIsIrrelevant(a: seq<ProbeId>, b: seq<ProbeId>, votes: Votes, policy: Policy)
    requires multiset(a) == multiset(b)
    ensures EvaluateProbeRound(a, votes, policy) == EvaluateProbeRound(b, votes, policy)
  {
    assert |a| == |multiset(a)| == |multiset(b)| == |b|;
    assert forall m :: m in a <==> m in multiset(a);
    assert forall m :: m in b <==> m in multiset(b);
    if Distinct(a) || Distinct(b) {
      if Distinct(a) { PermutedIsDistinct(a, b); } else { PermutedIsDistinct(b, a); }
      forall o: Outcome ensures Total(a, votes, o) == Total(b, votes, o) {
        TotalIsCardinality(a, votes, o);
        TotalIsCardinality(b, votes, o);
        assert Voters(a, votes, o) == Voters(b, votes, o);
      }
    }
  }

  // ---------------------------------------------------------------- what the modes mean

  ghost predicate FailsBy(members: seq<ProbeId>, votes: Votes, policy: Policy) {
    var failed := Voters(members, votes, Failure);
    match policy.mode
    case Any => exists m :: m in members && m in failed
    case Majority => 2 * |failed| > |members|
    case All => forall m :: m in members ==> m in failed
    case AtLeast => policy.failureVotes.Some? && |failed| >= policy.failureVotes.value
    case Specified => policy.specifiedProbe.Some? && policy.specifiedProbe.value in failed
  }

  lemma MembersAreDistinct(members: seq<ProbeId>)
    requires Distinct(members)
    ensures |set m | m in members| == |members|
  {
    var votes: Votes := map m | m in members :: Failure;
    TotalIsCardinality(members, votes, Failure);
    CountAll(members, votes, |members|);
    assert Voters(members, votes, Failure) == set m | m in members;
  }

  lemma {:induction false} CountAll(members: seq<ProbeId>, votes: Votes, n: nat)
    requires n <= |members| && forall m :: m in members ==> m in votes && votes[m] == Failure
    ensures Count(members, votes, Failure, n) == n
  {
    if n > 0 {
      CountAll(members, votes, n - 1);
      assert members[n - 1] in members;
    }
  }

  /** When everyone gave a valid vote, the round fails as its mode says, and succeeds otherwise. */
  lemma CompleteRoundMeans(members: seq<ProbeId>, votes: Votes, policy: Policy)
    requires PolicyFault(members, policy).None? && Complete(members, votes)
    ensures Decide(members, votes, policy) == if FailsBy(members, votes, policy) then DecidedFailure else DecidedSuccess
  {
    var failed, everyone := Voters(members, votes, Failure), set m | m in members;
    CountsWithin(members, votes, |members|);
    TotalIsCardinality(members, votes, Failure);
    MembersAreDistinct(members);
    match policy.mode
    case Any =>
      if m :| m in failed {
        assert failed != {};
      }
    case All =>
      assert (forall m :: m in members ==> m in failed) <==> failed == everyone;
      if |failed| == |members| {
        SubsetOfSameSize(failed, everyone);
      }
    case Specified => assert Valid(votes, policy.specifiedProbe.value);
    case _ =>
  }

  lemma SubsetOfSameSize(a: set<ProbeId>, b: set<ProbeId>)
    requires a <= b && |a| == |b|
    ensures a == b
  {
    assert |b - a| == |b| - |a|;
  }
}
