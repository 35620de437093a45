/** The journaled rotation runner: a write-ahead log of at most three cloud steps, with an
    adversarial adapter and a crash possible at every await. */
module RotationJournal {
  import opened Wrappers

  // ---------------------------------------------------------------- the journal

  datatype Scope = Scope(
    account: string, service: string, region: string, instance: string,
    slot: string, iface: string, address: string, family: int)

  datatype Address = Address(address: string, family: int, allocation: Option<string>, resource: Option<string>)

  /** An instance with the addresses of each of its interfaces. */
  datatype Inventory = Inventory(
    account: string, service: string, region: string, instance: string, interfaces: map<string, seq<Address>>)

  /** The configured native names of a Lightsail instance; a dynamic address has no static IP. */
  datatype Lightsail = Lightsail(instanceName: string, ipv4: string, staticIp: Option<string>)

  /** Receipt or observation details by field name. */
  type Evidence = map<string, string>

  datatype Status = Pending | Applied | NotApplied | Ambiguous
  datatype Observation = Observation(status: Status, details: Evidence)

  /** The immutable part of a planned step. */
  datatype PlanStep = PlanStep(id: string, action: string)

  datatype State = Planned | Dispatched | Received | Waiting | Done | NeedsReview

  /** `argReceipt` and `argCandidate` are the copies the step hands to the adapter. */
  datatype Entry = Entry(
    step: PlanStep,
    argReceipt: Option<Evidence>,
    argCandidate: Option<Evidence>,
    state: State,
    receipt: Option<Evidence>,
    observation: Option<Observation>)

  datatype Phase = Running | Paused | UnderReview | Completed

  datatype Header = Header(attemptId: string, scope: Scope, lightsail: Option<Lightsail>, original: Inventory)

  datatype Journal = Journal(header: Header, phase: Phase, entries: seq<Entry>)

  /** The deterministic planner and the actions it may use. */
  datatype Rules = Rules(
    plan: (Scope, Inventory, string) -> Option<seq<PlanStep>>,
    allowedActions: set<string>)

  predicate SameInstance(scope: Scope, inventory: Inventory) {
    && inventory.account == scope.account && inventory.service == scope.service
    && inventory.region == scope.region && inventory.instance == scope.instance
  }

  /** Index of the first entry for an address, or the length. */
  function FindAddress(addresses: seq<Address>, address: string, family: int): (k: nat)
    ensures k <= |addresses| && (k < |addresses| ==> addresses[k].address == address && addresses[k].family == family)
    ensures forall i :: 0 <= i < k ==> addresses[i].address != address || addresses[i].family != family
  {
    if addresses == [] || (addresses[0].address == address && addresses[0].family == family) then 0
    else 1 + FindAddress(addresses[1..], address, family)
  }

  /** The original IPv4 address is held as the native names say: under that static IP, or under
      none. */
  predicate NativeNamesMatch(header: Header) {
    && (header.scope.service == "ec2" ==> header.lightsail.None?)
    && (header.scope.service == "lightsail" ==>
          && header.lightsail.Some? && header.scope.iface in header.original.interfaces
          && var addresses := header.original.interfaces[header.scope.iface];
          var k := FindAddress(addresses, header.lightsail.value.ipv4, 4);
          && k < |addresses|
          && match header.lightsail.value.staticIp
             case Some(name) => addresses[k].allocation == Some(name) && addresses[k].resource.GetOr("") != ""
             case None => addresses[k].allocation.None? && addresses[k].resource.None?)
  }

  predicate InventoryInScope(scope: Scope, inventory: Inventory, requireAddress: bool) {
    && SameInstance(scope, inventory)
    && scope.iface in inventory.interfaces
    && (requireAddress ==>
          var addresses := inventory.interfaces[scope.iface];
          FindAddress(addresses, scope.address, scope.family) < |addresses|)
  }

  predicate Allocates(step: PlanStep) {
    |step.action| >= 8 && step.action[|step.action| - 8..] == "allocate"
  }

  function Steps(entries: seq<Entry>): seq<PlanStep> {
    seq(|entries|, i requires 0 <= i < |entries| => entries[i].step)
  }

  // ---------------------------------------------------------------- validity

  predicate ValidPlan(rules: Rules, header: Header, steps: seq<PlanStep>) {
    && 1 <= |steps| <= 3
    && rules.plan(header.scope, header.original, header.attemptId) == Some(steps)
    && (forall i :: 0 <= i < |steps| ==> steps[i].action in rules.allowedActions)
    && (forall i, j :: 0 <= i < j < |steps| ==> steps[i].id != steps[j].id)
  }

  /** Number of leading applied steps. */
  function Frontier(entries: seq<Entry>): nat
    ensures Frontier(entries) <= |entries|
    ensures forall i :: 0 <= i < Frontier(entries) ==> entries[i].state == Done
    ensures Frontier(entries) < |entries| ==> entries[Frontier(entries)].state != Done
  {
    if entries == [] || entries[0].state != Done then 0 else 1 + Frontier(entries[1..])
  }

  /** The receipt of the last applied allocation among the first `k` entries. */
  function CandidateBefore(entries: seq<Entry>, k: nat): Option<Evidence>
    requires k <= |entries|
  {
    if k == 0 then None
    else
      var last := entries[k - 1];
      if last.state == Done && Allocates(last.step) then last.receipt else CandidateBefore(entries, k - 1)
  }

  predicate ShapeOk(e: Entry) {
    && e.argReceipt == e.receipt
    && match e.state
       case Planned => e.receipt == None && e.observation == None
       case Dispatched => e.receipt == None && e.observation == None
       case Received => e.receipt != None && e.observation == None
       case Waiting => e.observation.Some? && e.observation.value.status == Pending
       case NeedsReview =>
         e.observation.Some? && (e.observation.value.status == Ambiguous || e.observation.value.status == NotApplied)
       case Done => e.receipt != None && e.observation.Some? && e.observation.value.status == Applied
  }

  predicate PhaseMatches(phase: Phase, active: Option<State>) {
    match phase
    case Completed => active == None
    case Paused => active == Some(Waiting)
    case UnderReview => active == Some(NeedsReview)
    case Running => active != Some(Waiting) && active != Some(NeedsReview)
  }

  predicate ValidEntries(entries: seq<Entry>) {
    && (forall i :: Frontier(entries) < i < |entries| ==> entries[i].state == Planned)
    && (forall i :: 0 <= i < |entries| ==>
        ShapeOk(entries[i]) && entries[i].argCandidate == CandidateBefore(entries, i))
  }

  function Active(entries: seq<Entry>): Option<State> {
    if Frontier(entries) < |entries| then Some(entries[Frontier(entries)].state) else None
  }

  /** Everything the store's check asks for except the native Lightsail names. */
  predicate SoundJournal(rules: Rules, j: Journal) {
    && InventoryInScope(j.header.scope, j.header.original, true)
    && ValidPlan(rules, j.header, Steps(j.entries))
    && ValidEntries(j.entries)
    && PhaseMatches(j.phase, Active(j.entries))
  }

  predicate ValidJournal(rules: Rules, j: Journal) {
    NativeNamesMatch(j.header) && SoundJournal(rules, j)
  }

  /** The store's own check: one scan with a running candidate receipt. */
  method ValidateJournal(rules: Rules, j: Journal) returns (ok: bool)
    ensures ok <==> ValidJournal(rules, j)
  {
    var entries := j.entries;
    if !(1 <= |entries| <= 3) || !InventoryInScope(j.header.scope, j.header.original, true)
        || !NativeNamesMatch(j.header)
       || !ValidPlan(rules, j.header, Steps(entries)) {
      return false;
    }
    var firstIncomplete := 0;
    while firstIncomplete < |entries| && entries[firstIncomplete].state == Done
      invariant firstIncomplete <= |entries|
      invariant forall i :: 0 <= i < firstIncomplete ==> entries[i].state == Done
    {
      firstIncomplete := firstIncomplete + 1;
    }
    FrontierIsFirst(entries, firstIncomplete);
    if firstIncomplete < |entries| {
      for i := firstIncomplete + 1 to |entries|
        invariant forall k :: firstIncomplete < k < i ==> entries[k].state == Planned
      {
        if entries[i].state != Planned {
          return false;
        }
      }
    }
    var active := if firstIncomplete < |entries| then Some(entries[firstIncomplete].state) else None;
    if !PhaseMatches(j.phase, active) {
      return false;
    }
    var candidate: Option<Evidence> := None;
    for i := 0 to |entries|
      invariant candidate == CandidateBefore(entries, i)
      invariant forall k :: 0 <= k < i ==> ShapeOk(entries[k]) && entries[k].argCandidate == CandidateBefore(entries, k)
    {
      if !ShapeOk(entries[i]) || entries[i].argCandidate != candidate {
        return false;
      }
      if entries[i].state == Done && Allocates(entries[i].step) {
        candidate := entries[i].receipt;
      }
    }
    return true;
  }

  lemma {:induction false} FrontierIsFirst(entries: seq<Entry>, n: nat)
    requires n <= |entries|
    requires forall i :: 0 <= i < n ==> entries[i].state == Done
    requires n < |entries| ==> entries[n].state != Done
    ensures Frontier(entries) == n
  {
    if n > 0 {
      FrontierIsFirst(entries[1..], n - 1);
    }
  }

  /** The first address of the interface that is this text in this family. */
  predicate FirstAddress(inventory: Inventory, iface: string, k: nat, address: string, family: int) {
    && iface in inventory.interfaces && k < |inventory.interfaces[iface]|
    && inventory.interfaces[iface][k].address == address && inventory.interfaces[iface][k].family == family
    && forall i :: 0 <= i < k ==>
         inventory.interfaces[iface][i].address != address || inventory.interfaces[iface][i].family != family
  }

  /** A journal that passes the check is about the instance, interface and address of its scope. */
  lemma JournalIsInScope(rules: Rules, j: Journal) returns (k: nat)
    requires SoundJournal(rules, j)
    ensures var scope, original := j.header.scope, j.header.original;
            && original.account == scope.account && original.service == scope.service
            && original.region == scope.region && original.instance == scope.instance
            && FirstAddress(original, scope.iface, k, scope.address, scope.family)
  {
    k := FindAddress(j.header.original.interfaces[j.header.scope.iface], j.header.scope.address, j.header.scope.family);
  }

  /** The native names agree exactly when EC2 has none, and Lightsail's name the first holder of the
      configured IPv4 address: allocated under the static IP named and a resource of its own, or under
      nothing when none is named. */
  lemma NativeNamesMean(h: Header, k: nat)
    requires h.lightsail.Some? ==> FirstAddress(h.original, h.scope.iface, k, h.lightsail.value.ipv4, 4)
    ensures NativeNamesMatch(h) <==>
            && (h.scope.service == "ec2" ==> h.lightsail == None)
            && (h.scope.service == "lightsail" ==>
                  && h.lightsail != None
                  && var held := h.original.interfaces[h.scope.iface][k];
                     if h.lightsail.value.staticIp == None then held.allocation == None && held.resource == None
                     else held.allocation == h.lightsail.value.staticIp
                          && held.resource.Some? && |held.resource.value| > 0)
  {
  }

  /** A Lightsail address that is not there agrees with no names. */
  lemma MissingAddressMismatches(h: Header)
    requires h.scope.service == "lightsail" && h.lightsail.Some? && h.scope.iface in h.original.interfaces
    requires forall i :: 0 <= i < |h.original.interfaces[h.scope.iface]| ==>
               var held := h.original.interfaces[h.scope.iface][i];
               held.address != h.lightsail.value.ipv4 || held.family != 4
    ensures !NativeNamesMatch(h)
  {
  }

  // ---------------------------------------------------------------- what a run writes

  function NewJournal(header: Header, steps: seq<PlanStep>): Journal {
    Journal(header, Running, seq(|steps|, i requires 0 <= i < |steps| => Entry(steps[i], None, None, Planned, None,
        None)))
  }

  function AfterDispatch(j: Journal, i: nat): Journal
    requires i < |j.entries|
  {
    j.(phase := Running, entries := j.entries[i := j.entries[i].(state := Dispatched)])
  }

  function AfterReceipt(j: Journal, i: nat, receipt: Evidence): Journal
    requires i < |j.entries|
  {
    j.(entries := j.entries[i := j.entries[i].(receipt := Some(receipt), argReceipt := Some(receipt),
        state := Received)])
  }

  /** Observation details override receipt fields. */
  function Merge(receipt: Option<Evidence>, details: Evidence): Evidence {
    receipt.GetOr(map[]) + details
  }

  function Carry(entries: seq<Entry>, i: nat, receipt: Evidence): seq<Entry>
    requires i < |entries|
  {
    if !Allocates(entries[i].step) then entries
    else
      seq(|entries|, k requires 0 <= k < |entries| =>
        if k > i then entries[k].(argCandidate := Some(receipt)) else entries[k])
  }

  function AfterApplied(j: Journal, i: nat, details: Evidence): Journal
    requires i < |j.entries|
  {
    var receipt := Merge(j.entries[i].receipt, details);
    var entry := j.entries[i].(observation := Some(Observation(Applied, details)),
                               receipt := Some(receipt), argReceipt := Some(receipt), state := Done);
    j.(phase := Running, entries := Carry(j.entries[i := entry], i, receipt))
  }

  function AfterStuck(j: Journal, i: nat, observation: Observation): Journal
    requires i < |j.entries|
  {
    var waiting := observation.status == Pending;
    j.(phase := if waiting then Paused else UnderReview,
       entries := j.entries[i := j.entries[i].(observation := Some(observation),
                                               state := if waiting then Waiting else NeedsReview)])
  }

  /** Applied entries are final, plans and headers never change, nothing returns to planned. */
  predicate Extends(a: Journal, b: Journal) {
    && a.header == b.header && |a.entries| == |b.entries|
    && forall i :: 0 <= i < |a.entries| ==>
         && a.entries[i].step == b.entries[i].step
         && (a.entries[i].state == Done ==> b.entries[i] == a.entries[i])
         && (a.entries[i].state != Planned ==> b.entries[i].state != Planned)
  }

  lemma NewJournalIsSound(rules: Rules, header: Header, steps: seq<PlanStep>)
    requires InventoryInScope(header.scope, header.original, true) && ValidPlan(rules, header, steps)
    ensures SoundJournal(rules, NewJournal(header, steps))
  {
    var j := NewJournal(header, steps);
    assert Steps(j.entries) == steps;
    FrontierIsFirst(j.entries, 0);
    forall i | 0 <= i < |j.entries| ensures CandidateBefore(j.entries, i) == None {
      CandidatePast(j.entries, 0, i);
    }
  }

  /** Where nothing is applied the candidate does not change. */
  lemma {:induction false} CandidatePast(entries: seq<Entry>, i: nat, k: nat)
    requires i <= k <= |entries|
    requires forall x :: i <= x < k ==> entries[x].state != Done
    ensures CandidateBefore(entries, k) == CandidateBefore(entries, i)
  {
    if k > i {
      CandidatePast(entries, i, k - 1);
    }
  }

  lemma {:induction false} SameCandidate(a: seq<Entry>, b: seq<Entry>, k: nat)
    requires k <= |a| && k <= |b|
    requires forall x :: 0 <= x < k ==> a[x] == b[x]
    ensures CandidateBefore(a, k) == CandidateBefore(b, k)
  {
    if k > 0 {
      SameCandidate(a, b, k - 1);
    }
  }

  /** Candidates before and after the active entry is rewritten. */
  lemma {:induction false} RewriteCandidates(a: seq<Entry>, b: seq<Entry>, i: nat, k: nat)
    requires |a| == |b| && i < |a| && k <= |a|
    requires forall x :: 0 <= x < i ==> a[x] == b[x]
    requires forall x :: i < x < |a| ==> a[x].state != Done && b[x].state != Done
    requires a[i].state != Done
    ensures k <= i ==> CandidateBefore(b, k) == CandidateBefore(a, k)
    ensures k > i ==>
              CandidateBefore(b, k) ==
              if b[i].state == Done && Allocates(b[i].step) then b[i].receipt else CandidateBefore(a, k)
  {
    if k <= i {
      SameCandidate(a, b, k);
    } else {
      SameCandidate(a, b, i);
      CandidatePast(a, i + 1, k);
      CandidatePast(b, i + 1, k);
    }
  }

  /** Rewriting the active entry, short of applying it, keeps the entries valid. */
  lemma ActiveRewrite(entries: seq<Entry>, i: nat, e: Entry)
    requires ValidEntries(entries) && i == Frontier(entries) && i < |entries|
    requires e.step == entries[i].step && e.argCandidate == entries[i].argCandidate && e.state != Done && ShapeOk(e)
    ensures ValidEntries(entries[i := e]) && Frontier(entries[i := e]) == i
    ensures Steps(entries[i := e]) == Steps(entries)
  {
    var after := entries[i := e];
    FrontierIsFirst(after, i);
    forall k | 0 <= k < |after| ensures after[k].argCandidate == CandidateBefore(after, k) {
      RewriteCandidates(entries, after, i, k);
    }
  }

  lemma DispatchIsSound(rules: Rules, j: Journal, i: nat)
    requires SoundJournal(rules, j) && i == Frontier(j.entries) && i < |j.entries| && j.entries[i].state == Planned
    ensures SoundJournal(rules, AfterDispatch(j, i)) && Extends(j, AfterDispatch(j, i))
    ensures Frontier(AfterDispatch(j, i).entries) == i
  {
    ActiveRewrite(j.entries, i, AfterDispatch(j, i).entries[i]);
  }

  lemma ReceiptIsSound(rules: Rules, j: Journal, i: nat, receipt: Evidence)
    requires SoundJournal(rules, j) && i == Frontier(j.entries) && i < |j.entries| && j.entries[i].state == Dispatched
    ensures SoundJournal(rules, AfterReceipt(j, i, receipt)) && Extends(j, AfterReceipt(j, i, receipt))
    ensures Frontier(AfterReceipt(j, i, receipt).entries) == i
  {
    ActiveRewrite(j.entries, i, AfterReceipt(j, i, receipt).entries[i]);
  }

  lemma StuckIsSound(rules: Rules, j: Journal, i: nat, observation: Observation)
    requires SoundJournal(rules, j) && i == Frontier(j.entries) && i < |j.entries| && j.entries[i].state != Planned
    requires observation.status != Applied
    ensures SoundJournal(rules, AfterStuck(j, i, observation)) && Extends(j, AfterStuck(j, i, observation))
  {
    ActiveRewrite(j.entries, i, AfterStuck(j, i, observation).entries[i]);
  }

  /** Carrying a receipt touches nothing but the candidate copies of the later steps. */
  lemma CarryShape(entries: seq<Entry>, i: nat, receipt: Evidence)
    requires i < |entries|
    ensures var after := Carry(entries, i, receipt);
            && |after| == |entries| && Steps(after) == Steps(entries)
            && (forall k :: 0 <= k <= i ==> after[k] == entries[k])
            && (forall k :: i < k < |entries| ==>
                  after[k] == if Allocates(entries[i].step) then entries[k].(argCandidate := Some(receipt))
                      else entries[k])
  {
    hide Allocates;
    assert Steps(Carry(entries, i, receipt)) == Steps(entries);
  }

  /** The candidate copies after the active entry is applied. */
  lemma {:induction false} AppliedCandidates(entries: seq<Entry>, after: seq<Entry>, i: nat, e: Entry, k: nat)
    requires ValidEntries(entries) && i == Frontier(entries) && i < |entries| && k < |entries| == |after|
    requires e.argCandidate == entries[i].argCandidate && e.state == Done && e.receipt.Some?
    requires forall x :: 0 <= x < i ==> after[x] == entries[x]
    requires after[i] == e
    requires forall x :: i < x < |entries| ==>
               after[x] == if Allocates(e.step) then entries[x].(argCandidate := e.receipt) else entries[x]
    ensures after[k].argCandidate == CandidateBefore(after, k)
  {
    hide Allocates, ShapeOk;
    RewriteCandidates(entries, after, i, k);
  }

  lemma AppliedEntries(entries: seq<Entry>, i: nat, e: Entry)
    requires ValidEntries(entries) && i == Frontier(entries) && i < |entries|
    requires e.step == entries[i].step && e.argCandidate == entries[i].argCandidate && e.state == Done && ShapeOk(e)
    ensures var after := Carry(entries[i := e], i, e.receipt.value);
            && ValidEntries(after) && Frontier(after) == i + 1 && Steps(after) == Steps(entries)
            && |after| == |entries| && after[i] == e
            && (forall k :: 0 <= k < i ==> after[k] == entries[k])
            && (forall k :: i < k < |entries| ==>
                after[k].state == entries[k].state && after[k].step == entries[k].step)
  {
    hide Allocates, Carry, CandidateBefore, Frontier;
    var after := Carry(entries[i := e], i, e.receipt.value);
    CarryShape(entries[i := e], i, e.receipt.value);
    assert Steps(entries[i := e]) == Steps(entries);
    AppliedFrontier(entries, after, i);
    forall k | 0 <= k < |after| ensures after[k].argCandidate == CandidateBefore(after, k) {
      AppliedCandidates(entries, after, i, e, k);
    }
  }

  lemma {:induction false} AppliedFrontier(entries: seq<Entry>, after: seq<Entry>, i: nat)
    requires ValidEntries(entries) && i == Frontier(entries) < |entries| == |after| && after[i].state == Done
    requires forall x :: 0 <= x < i ==> after[x] == entries[x]
    requires forall x :: i < x < |entries| ==> after[x].state == entries[x].state
    ensures Frontier(after) == i + 1
  {
    hide CandidateBefore, ShapeOk;
    FrontierIsFirst(after, i + 1);
  }

  lemma AppliedIsSound(rules: Rules, j: Journal, i: nat, details: Evidence)
    requires SoundJournal(rules, j) && i == Frontier(j.entries) && i < |j.entries| && j.entries[i].state != Planned
    ensures SoundJournal(rules, AfterApplied(j, i, details)) && Extends(j, AfterApplied(j, i, details))
    ensures Frontier(AfterApplied(j, i, details).entries) == i + 1
  {
    hide ValidPlan, InventoryInScope, Carry, Allocates, Steps, CandidateBefore, Frontier;
    var receipt := Merge(j.entries[i].receipt, details);
    var entry := j.entries[i].(observation := Some(Observation(Applied, details)),
                               receipt := Some(receipt), argReceipt := Some(receipt), state := Done);
    AppliedEntries(j.entries, i, entry);
    hide ValidEntries;
  }

  lemma CompletedIsSound(rules: Rules, j: Journal)
    requires SoundJournal(rules, j) && Frontier(j.entries) == |j.entries|
    ensures SoundJournal(rules, j.(phase := Completed)) && Extends(j, j.(phase := Completed))
  {
  }
}
