/** The runner over its journal file: any number of runs, each cut short at any await. */
module RotationRunner {
  import opened Wrappers
  import opened RotationJournal

  /** One call of the adapter's execute for a step, with the journal on disk at that moment, the
      inspection before it and the receipt, if it arrived. */
  datatype Execution = Execution(index: nat, journal: Journal, inspected: Inventory, receipt: Option<Evidence>)

  /** How an await ends: normally, by a crash or thrown error before its effect, or after it. */
  datatype Ending = Returns | FailsBefore | FailsAfter

  /** What the environment answers to an await: each call uses the part meant for it. */
  datatype Reply = Reply(
    ending: Ending, inventory: Inventory, receipt: Evidence, observation: Observation, deadlinePassed: bool)

  /** The answer that ended the polling of a step. */
  datatype Answer = Answer(index: nat, reply: Reply)

  datatype Config = Config(scope: Scope, lightsail: Option<Lightsail>, write: bool, attemptId: string)

  datatype Outcome = Aborted | ReadOnly(planned: seq<string>) | RunCompleted | RunPending | RunNeedsReview

  lemma ExtendsIsTransitive(a: Journal, b: Journal, c: Journal)
    requires Extends(a, b) && Extends(b, c)
    ensures Extends(a, c)
  {
  }

  /** A new journal whose original inventory contradicts the native Lightsail names. */
  predicate Mismatched(j: Journal) {
    j == NewJournal(j.header, Steps(j.entries)) && !NativeNamesMatch(j.header)
  }

  // ---------------------------------------------------------------- where entries come from

  /** An answer that ends the polling: a settled observation, or one after the deadline. */
  predicate Final(reply: Reply) {
    reply.observation.status != Pending || reply.deadlinePassed
  }

  /** Field by field, `over` where it says something and `base` elsewhere. */
  ghost predicate Overlays(merged: Evidence, over: Evidence, base: Evidence) {
    && (forall key :: key in merged <==> key in over || key in base)
    && (forall key :: key in over ==> merged[key] == over[key])
    && (forall key :: key in base && key !in over ==> merged[key] == base[key])
  }

  /** The step's polling ended with just this observation. */
  ghost predicate Observed(heard: seq<Answer>, i: nat, observation: Observation) {
    exists h :: 0 <= h < |heard| && heard[h].index == i && heard[h].reply.observation == observation
  }

  /** An execution of the step returned this receipt. */
  ghost predicate Returned(executed: seq<Execution>, i: nat, receipt: Evidence) {
    exists x :: 0 <= x < |executed| && executed[x].index == i && executed[x].receipt == Some(receipt)
  }

  /** The receipt of an unapplied entry is the one its execution returned. */
  ghost predicate Receipted(receipt: Option<Evidence>, i: nat, executed: seq<Execution>) {
    receipt.Some? ==> Returned(executed, i, receipt.value)
  }

  /** What an entry records was really answered: its observation ended a polling of this very step,
      and its receipt is what its execution returned, under the details observed once it is applied. */
  ghost predicate Backed(e: Entry, i: nat, heard: seq<Answer>, executed: seq<Execution>) {
    && (e.observation.Some? ==> Observed(heard, i, e.observation.value))
    && if e.state == Done && e.observation.Some? && e.receipt.Some? then
         exists base: Option<Evidence> ::
           Receipted(base, i, executed) && Overlays(e.receipt.value, e.observation.value.details, base.GetOr(map[]))
       else Receipted(e.receipt, i, executed)
  }

  ghost predicate AllBacked(j: Journal, heard: seq<Answer>, executed: seq<Execution>) {
    forall i :: 0 <= i < |j.entries| ==> Backed(j.entries[i], i, heard, executed)
  }

  /** Entries stay backed while more is heard and executed. */
  lemma BackedStays(j: Journal, heard: seq<Answer>, executed: seq<Execution>, heard': seq<Answer>,
      executed': seq<Execution>)
    requires AllBacked(j, heard, executed) && heard <= heard' && executed <= executed'
    ensures AllBacked(j, heard', executed')
  {
    hide Overlays;
    forall i | 0 <= i < |j.entries| ensures Backed(j.entries[i], i, heard', executed') {
      EntryStays(j.entries[i], i, heard, executed, heard', executed');
    }
  }

  lemma EntryStays(
    e: Entry, i: nat, heard: seq<Answer>, executed: seq<Execution>, heard': seq<Answer>, executed': seq<Execution>)
    requires Backed(e, i, heard, executed) && heard <= heard' && executed <= executed'
    ensures Backed(e, i, heard', executed')
  {
    hide Overlays;
    forall receipt | Returned(executed, i, receipt) ensures Returned(executed', i, receipt) {
      var x :| 0 <= x < |executed| && executed[x].index == i && executed[x].receipt == Some(receipt);
      assert executed'[x] == executed[x];
    }
    if e.observation.Some? {
      var h :| 0 <= h < |heard| && heard[h].index == i && heard[h].reply.observation == e.observation.value;
      assert heard'[h] == heard[h];
    }
  }

  lemma NewIsBacked(header: Header, steps: seq<PlanStep>, heard: seq<Answer>, executed: seq<Execution>)
    ensures AllBacked(NewJournal(header, steps), heard, executed)
  {
  }

  lemma DispatchIsBacked(j: Journal, i: nat, heard: seq<Answer>, executed: seq<Execution>)
    requires i < |j.entries| && j.entries[i].state == Planned && AllBacked(j, heard, executed)
    ensures AllBacked(AfterDispatch(j, i), heard, executed)
  {
    hide Overlays, Observed, Receipted;
    var after := AfterDispatch(j, i);
    forall k | 0 <= k < |after.entries| ensures Backed(after.entries[k], k, heard, executed) {
      assert Backed(j.entries[k], k, heard, executed);
    }
  }

  lemma ReceiptIsBacked(j: Journal, i: nat, receipt: Evidence, heard: seq<Answer>, executed: seq<Execution>)
    requires i < |j.entries| && j.entries[i].observation.None? && AllBacked(j, heard, executed)
    requires Returned(executed, i, receipt)
    ensures AllBacked(AfterReceipt(j, i, receipt), heard, executed)
  {
    hide Overlays, Observed, Returned;
    var after := AfterReceipt(j, i, receipt);
    forall k | 0 <= k < |after.entries| ensures Backed(after.entries[k], k, heard, executed) {
      assert Backed(j.entries[k], k, heard, executed);
    }
  }

  lemma StuckIsBacked(j: Journal, i: nat, observation: Observation, heard: seq<Answer>, executed: seq<Execution>)
    requires i < |j.entries| && j.entries[i].state != Done && AllBacked(j, heard, executed)
    requires Observed(heard, i, observation)
    ensures AllBacked(AfterStuck(j, i, observation), heard, executed)
  {
    hide Overlays, Observed, Receipted;
    var after := AfterStuck(j, i, observation);
    forall k | 0 <= k < |after.entries| ensures Backed(after.entries[k], k, heard, executed) {
      assert Backed(j.entries[k], k, heard, executed);
    }
  }

  lemma MergeOverlays(receipt: Option<Evidence>, details: Evidence)
    ensures Overlays(Merge(receipt, details), details, receipt.GetOr(map[]))
  {
  }

  lemma AppliedIsBacked(j: Journal, i: nat, details: Evidence, heard: seq<Answer>, executed: seq<Execution>)
    requires i < |j.entries| && j.entries[i].state != Done && AllBacked(j, heard, executed)
    requires Observed(heard, i, Observation(Applied, details))
    ensures AllBacked(AfterApplied(j, i, details), heard, executed)
  {
    hide Overlays, Observed, Receipted, Merge, Carry;
    var after, receipt := AfterApplied(j, i, details), j.entries[i].receipt;
    var entry := j.entries[i].(observation := Some(Observation(Applied, details)),
                               receipt := Some(Merge(receipt, details)), argReceipt := Some(Merge(receipt, details)),
                               state := Done);
    CarryShape(j.entries[i := entry], i, Merge(receipt, details));
    assert Backed(j.entries[i], i, heard, executed);
    MergeOverlays(receipt, details);
    forall k | 0 <= k < |after.entries| ensures Backed(after.entries[k], k, heard, executed) {
      assert Backed(j.entries[k], k, heard, executed);
    }
  }

  /** The inspection is of the right instance and shows the slot's interface. */
  predicate Shows(inventory: Inventory, scope: Scope) {
    && inventory.account == scope.account && inventory.service == scope.service
    && inventory.region == scope.region && inventory.instance == scope.instance
    && scope.iface in inventory.interfaces.Keys
  }

  /** The slot's interface was found on the right instance just before. */
  predicate InspectedInScope(e: Execution) {
    Shows(e.inspected, e.journal.header.scope)
  }

  /** The interface still has the address that is to be rotated. */
  predicate ShowsAddress(inventory: Inventory, scope: Scope) {
    Shows(inventory, scope)
    && exists i :: 0 <= i < |inventory.interfaces[scope.iface]|
                   && inventory.interfaces[scope.iface][i].address == scope.address
                   && inventory.interfaces[scope.iface][i].family == scope.family
  }

  lemma ScopeIsShown(scope: Scope, inventory: Inventory, requireAddress: bool)
    requires InventoryInScope(scope, inventory, requireAddress)
    ensures Shows(inventory, scope) && (requireAddress ==> ShowsAddress(inventory, scope))
  {
    if requireAddress {
      var k := FindAddress(inventory.interfaces[scope.iface], scope.address, scope.family);
      assert inventory.interfaces[scope.iface][k].address == scope.address;
    }
  }

  /** The saved journal was made for another slot or under other native names. */
  predicate Foreign(disk: Option<Journal>, config: Config) {
    disk.Some? && (disk.value.header.scope != config.scope || disk.value.header.lightsail != config.lightsail)
  }

  /** What a run without permission to write reports: the actions planned for what it saw. */
  predicate ReportsPlan(rules: Rules, config: Config, script: seq<Reply>, actions: seq<string>) {
    && !config.write && |script| > 1 && ShowsAddress(script[1].inventory, config.scope)
    && var plan := rules.plan(config.scope, script[1].inventory, config.attemptId);
    plan.Some? && |actions| == |plan.value| && forall i :: 0 <= i < |actions| ==> actions[i] == plan.value[i].action
  }

  // ---------------------------------------------------------------- the world

  /** The journal file under its lock, the remote side effects, and the coming answers. */
  class World {
    const rules: Rules
    var disk: Option<Journal>
    var saved: seq<Journal>
    var refused: seq<Journal>
    var executed: seq<Execution>
    var heard: seq<Answer>
    const told: seq<Reply>
    var script: seq<Reply>

    constructor (rules: Rules, script: seq<Reply>)
      ensures Inv() && disk == None && saved == [] && refused == [] && executed == [] && heard == []
      ensures this.rules == rules && this.script == script && told == script
    {
      this.rules := rules;
      this.script := script;
      told := script;
      disk, saved, refused, executed, heard := None, [], [], [], [];
    }

    /** Every journal ever saved passes the store's check and continues the one before it. */
    ghost predicate HistoryOk()
      reads this`disk, this`saved
    {
      && (disk == if saved == [] then None else Some(saved[|saved| - 1]))
      && (forall k :: 0 <= k < |saved| ==> ValidJournal(rules, saved[k]))
      && (forall k :: 0 < k < |saved| ==> Extends(saved[k - 1], saved[k]))
    }

    /** Steps are executed in plan order, each at most once, after all earlier ones applied. */
    ghost predicate DispatchOk()
      reads this`disk, this`executed
    {
      && (forall k :: 0 <= k < |executed| ==>
            && disk.Some? && Extends(executed[k].journal, disk.value)
            && ValidJournal(rules, executed[k].journal)
            && Frontier(executed[k].journal.entries) == executed[k].index < |executed[k].journal.entries|
            && executed[k].journal.entries[executed[k].index].state == Dispatched
            && InspectedInScope(executed[k]) && exists r :: r in told && r.inventory == executed[k].inspected)
      && (forall k, m :: 0 <= k < m < |executed| ==> executed[k].index < executed[m].index)
    }

    /** The store's check has refused nothing but new journals whose native names do not match. */
    ghost predicate RefusalsOk()
      reads this`refused
    {
      forall k :: 0 <= k < |refused| ==> Mismatched(refused[k])
    }

    /** What is still to come is the end of all that is said, and what was heard was said. */
    ghost predicate HeardOk()
      reads this`heard, this`script
    {
      && |script| <= |told| && script == told[|told| - |script|..]
      && (forall k :: 0 <= k < |heard| ==>
            heard[k].reply in told && heard[k].reply.ending.Returns? && Final(heard[k].reply))
    }

    /** No saved journal records what was not answered. */
    ghost predicate RecordsOk()
      reads this`saved, this`heard, this`executed
    {
      forall k :: 0 <= k < |saved| ==> AllBacked(saved[k], heard, executed)
    }

    ghost predicate Inv()
      reads this`disk, this`saved, this`executed, this`refused, this`heard, this`script
    {
      HistoryOk() && DispatchOk() && RefusalsOk() && HeardOk() && RecordsOk()
    }

    /** The next answer; when none is left the process has crashed. */
    method Await() returns (reply: Option<Reply>, failed: bool)
      requires Inv()
      modifies this`script
      ensures Inv()
      ensures old(script) == [] ==> reply == None && failed && script == []
      ensures old(script) != [] ==>
                reply == Some(old(script)[0]) && failed == !reply.value.ending.Returns? && script == old(script)[1..]
    {
      hide ValidJournal, Extends, Frontier, Mismatched, AllBacked;
      reply, failed := None, true;
      if script != [] {
        reply, failed, script := Some(script[0]), !script[0].ending.Returns?, script[1..];
      }
    }

    /** The store checks the journal before it writes; then the file is replaced atomically, and a
        crash falls on either side of that. A refused journal reaches neither file nor disk. */
    method Save(j: Journal) returns (alive: bool)
      requires Inv() && (disk.Some? ==> Extends(disk.value, j))
      requires ValidJournal(rules, j) || Mismatched(j)
      requires AllBacked(j, heard, executed)
      modifies this`disk, this`saved, this`refused, this`script
      ensures Inv()
      ensures refused == if ValidJournal(rules, j) then old(refused) else old(refused) + [j]
      ensures !ValidJournal(rules, j) ==> !alive && disk == old(disk) && saved == old(saved) && script == old(script)
      ensures ValidJournal(rules, j) && old(script) == [] ==>
                !alive && disk == old(disk) && saved == old(saved) && script == []
      ensures ValidJournal(rules, j) && old(script) != [] ==>
                && script == old(script)[1..] && alive == old(script)[0].ending.Returns?
                && (if old(script)[0].ending.FailsBefore? then disk == old(disk) && saved == old(saved)
                    else disk == Some(j) && saved == old(saved) + [j])
    {
      hide ValidJournal, Extends, Frontier, Mismatched, AllBacked;
      var ok := ValidateJournal(rules, j);
      if !ok {
        refused := refused + [j];
        return false;
      }
      var reply, failed := Await();
      alive := !failed;
      if reply.Some? && !reply.value.ending.FailsBefore? {
        forall k | 0 <= k < |executed| ensures Extends(executed[k].journal, j) {
          ExtendsIsTransitive(executed[k].journal, disk.value, j);
        }
        disk := Some(j);
        saved := saved + [j];
      }
    }

    /** The remote effect happens with the call, whether or not its receipt arrives. */
    method Execute(i: nat, inspected: Inventory) returns (receipt: Option<Evidence>)
      requires Inv() && disk.Some? && i == Frontier(disk.value.entries) < |disk.value.entries|
      requires disk.value.entries[i].state == Dispatched
      requires forall k :: 0 <= k < |executed| ==> executed[k].index < i
      requires InventoryInScope(disk.value.header.scope, inspected, false)
      requires exists r :: r in told && r.inventory == inspected
      modifies this`executed, this`script
      ensures Inv() && executed == old(executed) + [Execution(i, disk.value, inspected, receipt)]
      ensures if old(script) == [] then receipt == None && script == []
              else script == old(script)[1..]
                   && receipt == if old(script)[0].ending.Returns? then Some(old(script)[0].receipt) else None
    {
      hide ValidJournal, Extends, Frontier, Mismatched, AllBacked;
      ExtendsItself(disk.value);
      var reply, failed := Await();
      receipt := if failed then None else Some(reply.value.receipt);
      ghost var before := executed;
      executed := executed + [Execution(i, disk.value, inspected, receipt)];
      forall k | 0 <= k < |saved| ensures AllBacked(saved[k], heard, executed) {
        BackedStays(saved[k], heard, before, heard, executed);
      }
    }

    /** Remembers the answer that ended a polling. */
    method Hear(i: nat, reply: Reply)
      requires Inv() && reply in told && reply.ending.Returns? && Final(reply)
      modifies this`heard
      ensures Inv() && heard == old(heard) + [Answer(i, reply)]
    {
      hide ValidJournal, Extends, Frontier, Mismatched, AllBacked;
      ghost var before := heard;
      heard := heard + [Answer(i, reply)];
      forall k | 0 <= k < |saved| ensures AllBacked(saved[k], heard, executed) {
        BackedStays(saved[k], before, executed, heard, executed);
      }
    }

    lemma ExtendsItself(j: Journal)
      ensures Extends(j, j)
    {
    }
  }

  /** An environment that from here on neither crashes nor changes the slot, and in which every
      effect is seen applied. */
  ghost predicate Obliging(script: seq<Reply>, scope: Scope) {
    forall k :: 0 <= k < |script| ==>
      script[k].ending.Returns? && InventoryInScope(scope, script[k].inventory, true)
      && script[k].observation.status == Applied
  }

  /** At least `n` more answers are coming, all obliging. */
  ghost predicate Ready(script: seq<Reply>, scope: Scope, n: nat) {
    |script| >= n && Obliging(script, scope)
  }

  /** Position of the first answer that ends a polling; the length when none does. */
  function FirstFinal(script: seq<Reply>): (k: nat)
    ensures k <= |script| && (forall m :: 0 <= m < k ==> !Final(script[m]))
    ensures k < |script| ==> Final(script[k])
  {
    if script == [] || Final(script[0]) then 0 else 1 + FirstFinal(script[1..])
  }

  /** The polling reaches that answer: neither it nor a question before it fails. */
  predicate Answered(script: seq<Reply>) {
    var k := FirstFinal(script);
    k < |script| && forall m :: 0 <= m <= k ==> script[m].ending.Returns?
  }

  lemma {:induction false} FirstFinalAt(script: seq<Reply>, k: nat)
    requires k <= |script| && (forall m :: 0 <= m < k ==> !Final(script[m])) && (k < |script| ==> Final(script[k]))
    ensures FirstFinal(script) == k
  {
    if k > 0 {
      FirstFinalAt(script[1..], k - 1);
    }
  }

  /** Polls the step until it settles or the deadline passes. */
  method ObserveUntilSettled(w: World, i: nat, ghost scope: Scope,
      ghost n: nat) returns (observation: Option<Observation>)
    requires w.Inv() && n > 0
    modifies w`script, w`heard
    ensures w.Inv() && |w.script| <= |old(w.script)|
    ensures observation.Some? <==> Answered(old(w.script))
    ensures observation.Some? ==>
              var k := FirstFinal(old(w.script)); var reply := old(w.script)[k];
              && observation.value == reply.observation && w.script == old(w.script)[k + 1..]
              && w.heard == old(w.heard) + [Answer(i, reply)]
    ensures observation.None? ==> w.heard == old(w.heard)
    ensures old(Ready(w.script, scope, n)) ==>
              observation.Some? && observation.value.status == Applied && Ready(w.script, scope, n - 1)
  {
    hide World.HistoryOk, World.DispatchOk, World.RefusalsOk, World.RecordsOk, InventoryInScope;
    ghost var asked := w.script;
    ghost var at := 0;
    while true
      invariant w.Inv() && at <= |asked| && w.script == asked[at..] && w.heard == old(w.heard)
      invariant forall m :: 0 <= m < at ==> asked[m].ending.Returns? && !Final(asked[m])
      invariant old(Ready(w.script, scope, n)) ==> Ready(w.script, scope, n)
      decreases |w.script|
    {
      ghost var rest := w.script;
      var reply, failed := w.Await();
      if failed {
        assert at < |asked| ==> !asked[at].ending.Returns?;
        return None;
      }
      assert reply.value == rest[0] == asked[at];
      if reply.value.observation.status != Pending || reply.value.deadlinePassed {
        FirstFinalAt(asked, at);
        w.Hear(i, reply.value);
        return Some(reply.value.observation);
      }
      at := at + 1;
    }
  }

  /** `verifyIdentity`, then `inspect`, as before the plan and before every mutation. */
  method IdentifyAndInspect(w: World, scope: Scope, requireAddress: bool, ghost n: nat)
    returns (inventory: Option<Inventory>)
    requires w.Inv() && n >= 2
    modifies w`script
    ensures w.Inv() && w.disk == old(w.disk)
    ensures inventory.Some? ==> exists r :: r in w.told && r.inventory == inventory.value
    ensures inventory.Some? ==>
              && InventoryInScope(scope, inventory.value, requireAddress)
              && |old(w.script)| > 1 && inventory.value == old(w.script)[1].inventory
    ensures old(Ready(w.script, scope, n)) ==>
              inventory.Some? && InventoryInScope(scope, inventory.value, true) && Ready(w.script, scope, n - 2)
  {
    hide World.HistoryOk, World.DispatchOk, World.RecordsOk;
    var reply, failed := w.Await();
    if failed {
      return None;
    }
    ghost var said := w.script;
    reply, failed := w.Await();
    assert said != [] ==> said[0] in w.told;
    if failed || !InventoryInScope(scope, reply.value.inventory, requireAddress) {
      return None;
    }
    return Some(reply.value.inventory);
  }

  /** A planned step has never been executed, so only earlier ones have. */
  lemma PlannedIsUnexecuted(w: World, i: nat)
    requires w.Inv() && w.disk.Some? && i == Frontier(w.disk.value.entries) < |w.disk.value.entries|
    requires w.disk.value.entries[i].state == Planned
    ensures forall k :: 0 <= k < |w.executed| ==> w.executed[k].index < i
  {
    hide NativeNamesMatch, InventoryInScope, ValidPlan, CandidateBefore, PhaseMatches, ShapeOk, Mismatched;
    assert SoundJournal(w.rules, w.disk.value);
    forall k | 0 <= k < |w.executed| ensures w.executed[k].index < i {
      assert Extends(w.executed[k].journal, w.disk.value);
      assert w.disk.value.entries[w.executed[k].index].state != Planned;
    }
  }

  /** Executes the step marked dispatched on disk and records its receipt. */
  method ExecuteStep(w: World, marked: Journal, i: nat, inspected: Inventory, ghost scope: Scope, ghost n: nat)
    returns (next: Option<Journal>)
    requires w.Inv() && w.disk == Some(marked) && n >= 2
    requires i == Frontier(marked.entries) < |marked.entries| && marked.entries[i].state == Dispatched
    requires forall k :: 0 <= k < |w.executed| ==> w.executed[k].index < i
    requires InventoryInScope(marked.header.scope, inspected, false)
    requires exists r :: r in w.told && r.inventory == inspected
    modifies w`disk, w`saved, w`refused, w`executed, w`script
    ensures w.refused == old(w.refused) && w.Inv() && old(w.saved) <= w.saved
    ensures |w.executed| == |old(w.executed)| + 1
    ensures var receipt := w.executed[|old(w.executed)|].receipt;
            && w.executed == old(w.executed) + [Execution(i, marked, inspected, receipt)]
            && (next.Some? ==> receipt.Some? && w.disk == next == Some(AfterReceipt(marked, i, receipt.value)))
    ensures next.Some? ==> Frontier(next.value.entries) == i < |next.value.entries|
    ensures old(Ready(w.script, scope, n)) ==> next.Some? && Ready(w.script, scope, n - 2)
  {
    hide World.HistoryOk, World.DispatchOk, World.RefusalsOk, World.HeardOk, World.RecordsOk, SoundJournal, Extends,
      InventoryInScope, AllBacked, Frontier, Mismatched, Ready, NativeNamesMatch;
    WorldIsValid(w);
    ReadyNext(w.script, scope, n);
    var receipt := w.Execute(i, inspected);
    if receipt.None? {
      return None;
    }
    ReceiptIsSound(w.rules, marked, i, receipt.value);
    WorldIsBacked(w);
    UnobservedWhileDispatched(w, i);
    assert w.executed[|w.executed| - 1].receipt == receipt;
    ReceiptIsBacked(marked, i, receipt.value, w.heard, w.executed);
    var entry := marked.entries[i].(receipt := receipt, argReceipt := receipt, state := Received);
    var current := marked.(entries := marked.entries[i := entry]);
    assert current == AfterReceipt(marked, i, receipt.value);
    ReadyNext(w.script, scope, n - 1);
    var alive := w.Save(current);
    return if alive then Some(current) else None;
  }

  /** Dispatches the planned step at the frontier: marked on disk first, then executed, then
      its receipt recorded. */
  method DispatchStep(w: World, config: Config, journal: Journal, i: nat, ghost n: nat) returns (next: Option<Journal>)
    requires w.Inv() && w.disk == Some(journal) && n >= 5
    requires i == Frontier(journal.entries) < |journal.entries| && journal.entries[i].state == Planned
    requires journal.header.scope == config.scope
    modifies w
    ensures w.refused == old(w.refused) && w.heard == old(w.heard)
    ensures w.Inv() && old(w.saved) <= w.saved && old(w.executed) <= w.executed
    ensures w.executed != old(w.executed) ==>
              exists inspected, receipt ::
                w.executed == old(w.executed) + [Execution(i, AfterDispatch(journal, i), inspected, receipt)]
    ensures next.Some? ==>
              && w.disk == next && Frontier(next.value.entries) == i < |next.value.entries|
              && |w.executed| == |old(w.executed)| + 1
              && var receipt := w.executed[|old(w.executed)|].receipt;
              receipt.Some? && next == Some(AfterReceipt(AfterDispatch(journal, i), i, receipt.value))
    ensures old(Ready(w.script, config.scope, n)) ==> next.Some? && Ready(w.script, config.scope, n - 5)
  {
    hide World.HistoryOk, World.DispatchOk, World.RefusalsOk, World.HeardOk, World.RecordsOk, SoundJournal, Extends,
      InventoryInScope, AllBacked, Frontier, Mismatched, Ready, NativeNamesMatch;
    WorldIsValid(w);
    var before := IdentifyAndInspect(w, config.scope, false, n);
    if before.None? {
      return None;
    }
    PlannedIsUnexecuted(w, i);
    DispatchIsSound(w.rules, journal, i);
    WorldIsBacked(w);
    DispatchIsBacked(journal, i, w.heard, w.executed);
    var entry := journal.entries[i].(state := Dispatched);
    var current := journal.(phase := Running, entries := journal.entries[i := entry]);
    ReadyNext(w.script, config.scope, n - 2);
    var alive := w.Save(current);
    if !alive {
      return None;
    }
    next := ExecuteStep(w, current, i, before.value, config.scope, n - 3);
  }

  datatype Settling = Stopped(outcome: Outcome) | Advanced(journal: Journal)

  /** Apart from entry `i`, at most candidate copies and the phase differ. */
  predicate OnlyEntry(before: Journal, after: Journal, i: nat) {
    && after.header == before.header && |after.entries| == |before.entries| && i < |before.entries|
    && forall k :: 0 <= k < |before.entries| && k != i ==>
         after.entries[k] == before.entries[k].(argCandidate := after.entries[k].argCandidate)
  }

  /** How a step is settled by what was observed, on disk and in the outcome: applied with exactly
      that observation, its details laid over the receipt, and the run goes on; or recorded as it
      is, and the run stops. */
  ghost predicate Settles(disk: Option<Journal>, before: Journal, i: nat, observation: Observation, result: Settling)
    requires i < |before.entries|
  {
    && disk.Some? && OnlyEntry(before, disk.value, i) && disk.value.entries[i].observation == Some(observation)
    && match observation.status
       case Applied =>
         && result == Advanced(disk.value) && disk.value.entries[i].state == Done
         && disk.value.entries[i].receipt.Some?
         && Overlays(disk.value.entries[i].receipt.value, observation.details, before.entries[i].receipt.GetOr(map[]))
       case Pending =>
         && result == Stopped(RunPending) && disk.value.entries[i].state == Waiting
         && disk.value.entries[i].receipt == before.entries[i].receipt
       case _ =>
         && result == Stopped(RunNeedsReview) && disk.value.entries[i].state == NeedsReview
         && disk.value.entries[i].receipt == before.entries[i].receipt
  }

  lemma AppliedEntryAt(j: Journal, i: nat, details: Evidence)
    requires i < |j.entries|
    ensures OnlyEntry(j, AfterApplied(j, i, details), i)
    ensures var entries := AfterApplied(j, i, details).entries;
            && entries[i].observation == Some(Observation(Applied, details))
            && entries[i].state == Done && entries[i].receipt.Some?
            && Overlays(entries[i].receipt.value, details, j.entries[i].receipt.GetOr(map[]))
  {
    MergeOverlays(j.entries[i].receipt, details);
    hide Merge, Allocates, Overlays;
  }

  /** Records what was observed of the active step. */
  method RecordVerdict(w: World, journal: Journal, i: nat, observation: Observation) returns (result: Settling)
    requires w.Inv() && w.disk == Some(journal) && Observed(w.heard, i, observation)
    requires i == Frontier(journal.entries) < |journal.entries| && journal.entries[i].state != Planned
    modifies w`disk, w`saved, w`refused, w`script
    ensures w.refused == old(w.refused) && w.Inv() && old(w.saved) <= w.saved
    ensures old(w.script) == [] ==> w.script == []
    ensures old(w.script) != [] ==> w.script == old(w.script)[1..]
    ensures result == Stopped(Aborted) <==> !(old(w.script) != [] && old(w.script)[0].ending.Returns?)
    ensures result != Stopped(Aborted) ==> Settles(w.disk, journal, i, observation, result)
    ensures result.Advanced? ==> w.disk == Some(result.journal) && Frontier(result.journal.entries) > i
    ensures result.Stopped? ==>
              && (result.outcome.RunPending? ==> w.disk.Some? && w.disk.value.phase == Paused)
              && (result.outcome.RunNeedsReview? ==> w.disk.Some? && w.disk.value.phase == UnderReview)
  {
    hide World.HistoryOk, World.DispatchOk, World.RefusalsOk, World.HeardOk, World.RecordsOk, SoundJournal, Extends,
      InventoryInScope, AllBacked, Overlays, Observed, Merge, Allocates, Frontier;
    WorldIsValid(w);
    WorldIsBacked(w);
    var entry := journal.entries[i].(observation := Some(observation));
    if observation.status == Applied {
      AppliedIsSound(w.rules, journal, i, observation.details);
      AppliedIsBacked(journal, i, observation.details, w.heard, w.executed);
      var receipt := Merge(entry.receipt, observation.details);
      entry := entry.(receipt := Some(receipt), argReceipt := Some(receipt), state := Done);
      var entries := Carry(journal.entries[i := entry], i, receipt);
      var next := journal.(phase := Running, entries := entries);
      assert next == AfterApplied(journal, i, observation.details);
      AppliedEntryAt(journal, i, observation.details);
      var alive := w.Save(next);
      return if alive then Advanced(next) else Stopped(Aborted);
    }
    StuckIsSound(w.rules, journal, i, observation);
    StuckIsBacked(journal, i, observation, w.heard, w.executed);
    var waiting := observation.status == Pending;
    entry := entry.(state := if waiting then Waiting else NeedsReview);
    var next := journal.(phase := if waiting then Paused else UnderReview, entries := journal.entries[i := entry]);
    assert next == AfterStuck(journal, i, observation);
    var alive := w.Save(next);
    return Stopped(if !alive then Aborted else if waiting then RunPending else RunNeedsReview);
  }

  /** Observes the active step and records the verdict. */
  method SettleStep(w: World, journal: Journal, i: nat, ghost scope: Scope, ghost n: nat) returns (result: Settling)
    requires w.Inv() && w.disk == Some(journal) && n >= 2
    requires i == Frontier(journal.entries) < |journal.entries| && journal.entries[i].state != Planned
    modifies w
    ensures w.refused == old(w.refused)
    ensures w.Inv() && old(w.saved) <= w.saved && w.executed == old(w.executed)
    ensures var script := old(w.script); var k := FirstFinal(script);
            && (result == Stopped(Aborted) <==>
                  !(Answered(script) && k + 1 < |script| && script[k + 1].ending.Returns?))
            && w.heard == old(w.heard) + (if Answered(script) then [Answer(i, script[k])] else [])
            && (result != Stopped(Aborted) ==> Settles(w.disk, journal, i, script[k].observation, result))
    ensures result.Advanced? ==> w.disk == Some(result.journal) && Frontier(result.journal.entries) > i
    ensures result.Stopped? ==>
              && (result.outcome.RunPending? ==> w.disk.Some? && w.disk.value.phase == Paused)
              && (result.outcome.RunNeedsReview? ==> w.disk.Some? && w.disk.value.phase == UnderReview)
              && !result.outcome.RunCompleted? && !result.outcome.ReadOnly?
    ensures old(Ready(w.script, scope, n)) ==> result.Advanced? && Ready(w.script, scope, n - 2)
  {
    hide World.HistoryOk, World.DispatchOk, World.RefusalsOk, World.HeardOk, World.RecordsOk, SoundJournal, Extends,
      InventoryInScope, AllBacked, Overlays, OnlyEntry, Frontier;
    var observed := ObserveUntilSettled(w, i, scope, n);
    if observed.None? {
      return Stopped(Aborted);
    }
    assert w.heard[|w.heard| - 1].reply.observation == observed.value;
    result := RecordVerdict(w, journal, i, observed.value);
  }

  /** The header of a first journal, made from the third answer: after load and identity. */
  function FirstHeader(config: Config, script: seq<Reply>): Header
    requires |script| > 2
  {
    Header(config.attemptId, config.scope, config.lightsail, script[2].inventory)
  }

  /** The first inspection can be planned for. */
  predicate Plannable(rules: Rules, config: Config, script: seq<Reply>) {
    && |script| > 2
    && var plan := rules.plan(config.scope, script[2].inventory, config.attemptId);
    plan.Some? && ValidPlan(rules, FirstHeader(config, script), plan.value)
  }

  /** The saved journal belongs to the configured scope, or a first one can be made and saved. */
  predicate Startable(rules: Rules, disk: Option<Journal>, config: Config, script: seq<Reply>) {
    if disk.Some? then disk.value.header.scope == config.scope && disk.value.header.lightsail == config.lightsail
    else Plannable(rules, config, script) && NativeNamesMatch(FirstHeader(config, script))
  }

  /** The journal a run works on: the saved one after its checks, or a new plan. */
  method OpenJournal(w: World, config: Config, ghost n: nat)
    returns (journal: Option<Journal>, planned: Option<seq<string>>)
    requires w.Inv() && n >= 4
    modifies w
    ensures w.Inv() && old(w.saved) <= w.saved && w.executed == old(w.executed) && w.heard == old(w.heard)
    ensures old(w.disk).Some? ==> w.saved == old(w.saved)
    ensures journal.Some? ==>
              && config.write && w.disk == journal && journal.value.header.scope == config.scope
              && if old(w.disk).Some? then journal == old(w.disk)
                 else
                   && journal == Some(NewJournal(journal.value.header, Steps(journal.value.entries)))
                   && journal.value.header.lightsail == config.lightsail
                   && |old(w.script)| > 2 && journal.value.header == FirstHeader(config, old(w.script))
    ensures journal.Some? ==>
              && journal.value.header.lightsail == config.lightsail
              && |old(w.script)| > 2 && Shows(old(w.script)[2].inventory, config.scope)
    ensures w.saved != old(w.saved) || (old(w.disk).None? && journal.Some?) ==>
              |old(w.script)| > 2 && ShowsAddress(old(w.script)[2].inventory, config.scope)
    ensures planned.Some? ==> !config.write && ReportsPlan(w.rules, config, old(w.script), planned.value)
    ensures !config.write ==> journal == None && w.saved == old(w.saved)
    ensures w.refused != old(w.refused) ==>
              && config.write && journal == None && planned == None && w.saved == old(w.saved)
              && old(w.disk).None? && |old(w.script)| > 2
              && !NativeNamesMatch(FirstHeader(config, old(w.script))) && |w.refused| == |old(w.refused)| + 1
    ensures config.write && old(w.disk).None? && old(Plannable(w.rules, config, w.script))
            && old(Ready(w.script, config.scope, n)) ==>
              (w.refused != old(w.refused) <==> !NativeNamesMatch(FirstHeader(config, old(w.script))))
    ensures config.write && old(Startable(w.rules, w.disk, config, w.script))
            && old(Ready(w.script, config.scope, n)) ==>
              journal.Some? && Ready(w.script, config.scope, n - 4)
  {
    hide World.DispatchOk, World.RefusalsOk, World.HeardOk, World.RecordsOk, Extends, InventoryInScope, ValidEntries,
      PhaseMatches, Active, AllBacked, Shows, ShowsAddress;
    journal, planned := None, None;
    WorldIsValid(w);
    if config.write {
      var _, failed := w.Await();
      if failed {
        return;
      }
      if w.disk.Some? {
        var ok := ValidateJournal(w.rules, w.disk.value);
        assert ok;
        if w.disk.value.header.scope != config.scope || w.disk.value.header.lightsail != config.lightsail {
          return;
        }
      }
    }
    var current := IdentifyAndInspect(w, config.scope, !(config.write && w.disk.Some?), if config.write then n - 1
        else n);
    if current.None? {
      return;
    }
    ScopeIsShown(config.scope, current.value, !(config.write && w.disk.Some?));
    if config.write && w.disk.Some? {
      return w.disk, None;
    }
    var header := Header(config.attemptId, config.scope, config.lightsail, current.value);
    var plan := w.rules.plan(config.scope, current.value, config.attemptId);
    if plan.None? || !ValidPlan(w.rules, header, plan.value) {
      return;
    }
    if !config.write {
      return None, Some(seq(|plan.value|, i requires 0 <= i < |plan.value| => plan.value[i].action));
    }
    var created := NewJournal(header, plan.value);
    NewJournalIsSound(w.rules, header, plan.value);
    NewIsBacked(header, plan.value, w.heard, w.executed);
    assert Steps(created.entries) == plan.value;
    var alive := w.Save(created);
    if alive {
      journal := Some(created);
    }
  }

  /** Takes the step at the frontier through dispatch, unless a crash left it dispatched, and
      through settling. */
  method AdvanceStep(w: World, config: Config, journal: Journal, i: nat, ghost n: nat) returns (result: Settling)
    requires w.Inv() && w.disk == Some(journal) && i == Frontier(journal.entries) < |journal.entries| && n >= 7
    requires journal.header.scope == config.scope
    modifies w
    ensures w.refused == old(w.refused) && old(w.heard) <= w.heard
    ensures w.Inv() && old(w.saved) <= w.saved && old(w.executed) <= w.executed
    ensures result.Advanced? ==>
              && w.disk == Some(result.journal) && i < Frontier(result.journal.entries)
              && |result.journal.entries| == |journal.entries| && result.journal.header == journal.header
    ensures result.Stopped? ==>
              && (result.outcome.RunPending? ==> w.disk.Some? && w.disk.value.phase == Paused)
              && (result.outcome.RunNeedsReview? ==> w.disk.Some? && w.disk.value.phase == UnderReview)
              && !result.outcome.RunCompleted? && !result.outcome.ReadOnly?
    ensures old(Ready(w.script, config.scope, n)) ==> result.Advanced? && Ready(w.script, config.scope, n - 7)
  {
    hide World.HistoryOk, World.DispatchOk, World.RefusalsOk, World.HeardOk, World.RecordsOk, AllBacked, SoundJournal,
        Extends, InventoryInScope, Frontier,
      Obliging;
    var current := journal;
    if journal.entries[i].state == Planned {
      var dispatched := DispatchStep(w, config, journal, i, n);
      if dispatched.None? {
        return Stopped(Aborted);
      }
      current := dispatched.value;
    }
    result := SettleStep(w, current, i, config.scope, n - 5);
  }

  /** Walks the journal from its first unapplied entry to its end. */
  method DriveSteps(w: World, config: Config, begun: Journal) returns (result: Settling)
    requires w.Inv() && w.disk == Some(begun) && |begun.entries| <= 3 && begun.header.scope == config.scope
    modifies w
    ensures w.refused == old(w.refused) && old(w.heard) <= w.heard
    ensures w.Inv() && old(w.saved) <= w.saved && old(w.executed) <= w.executed
    ensures result.Advanced? ==>
              w.disk == Some(result.journal) && Frontier(result.journal.entries) == |result.journal.entries|
    ensures result.Stopped? ==>
              && (result.outcome.RunPending? ==> w.disk.Some? && w.disk.value.phase == Paused)
              && (result.outcome.RunNeedsReview? ==> w.disk.Some? && w.disk.value.phase == UnderReview)
              && !result.outcome.RunCompleted? && !result.outcome.ReadOnly?
    ensures old(Ready(w.script, config.scope, 23)) ==> result.Advanced? && Ready(w.script, config.scope, 2)
  {
    hide World.HistoryOk, World.DispatchOk, World.RefusalsOk, World.HeardOk, World.RecordsOk, AllBacked, SoundJournal,
        Extends, Frontier, Obliging;
    var journal := begun;
    for index := 0 to |begun.entries|
      invariant w.Inv() && w.disk == Some(journal) && |journal.entries| == |begun.entries|
      invariant journal.header == begun.header && old(w.heard) <= w.heard
      invariant index <= Frontier(journal.entries)
      invariant old(w.saved) <= w.saved && old(w.executed) <= w.executed && w.refused == old(w.refused)
      invariant old(Ready(w.script, config.scope, 23)) ==>
                  Ready(w.script, config.scope, 2 + 7 * (|begun.entries| - index))
    {
      FrontierAt(journal.entries, index);
      if journal.entries[index].state == Done {
        continue;
      }
      result := AdvanceStep(w, config, journal, index, 2 + 7 * (|begun.entries| - index));
      if result.Stopped? {
        return;
      }
      journal := result.journal;
    }
    return Advanced(journal);
  }

  /** A restart between two steps, or after the last, looks at the last applied step again. */
  predicate Rechecks(j: Journal) {
    var first := Frontier(j.entries);
    first != 0 && (first == |j.entries| || j.entries[first].state == Planned)
  }

  /** The first answer heard since then says that the last applied step still is. */
  predicate StillApplied(j: Journal, before: seq<Answer>, heard: seq<Answer>) {
    && |before| < |heard| && heard[|before|].index == Frontier(j.entries) - 1
    && heard[|before|].reply.observation.status == Applied
  }

  /** The last answer taken shows the slot in scope. */
  predicate LastInScope(w: World, scope: Scope)
    reads w`script
  {
    && |w.script| < |w.told| && w.told[|w.told| - |w.script| - 1].ending.Returns?
    && InventoryInScope(scope, w.told[|w.told| - |w.script| - 1].inventory, false)
  }

  /** Marks the journal completed and inspects once more. */
  method CompleteRun(w: World, config: Config, journal: Journal) returns (outcome: Outcome)
    requires w.Inv() && w.disk == Some(journal) && Frontier(journal.entries) == |journal.entries|
    modifies w`disk, w`saved, w`refused, w`script
    ensures w.refused == old(w.refused) && w.Inv() && old(w.saved) <= w.saved
    ensures outcome == RunCompleted || outcome == Aborted
    ensures outcome.RunCompleted? ==> w.disk == Some(journal.(phase := Completed)) && LastInScope(w, config.scope)
    ensures old(Ready(w.script, config.scope, 2)) ==> outcome.RunCompleted?
  {
    hide World.HistoryOk, World.DispatchOk, World.RefusalsOk, World.RecordsOk, AllBacked, SoundJournal, Extends,
      InventoryInScope, NativeNamesMatch, Frontier, Obliging, Steps, Mismatched, World.HeardOk, LastInScope;
    WorldIsValid(w);
    WorldIsBacked(w);
    CompletedIsSound(w.rules, journal);
    CompletedIsBacked(journal, w.heard, w.executed);
    ReadyNext(w.script, config.scope, 2);
    var alive := w.Save(journal.(phase := Completed));
    if !alive {
      return Aborted;
    }
    ReadyNext(w.script, config.scope, 1);
    ghost var said := w.script;
    SaidIsTail(w);
    var final, failed := w.Await();
    if failed || !InventoryInScope(config.scope, final.value.inventory, false) {
      return Aborted;
    }
    LastTaken(w, said, config.scope);
    return RunCompleted;
  }

  lemma SaidIsTail(w: World)
    requires w.Inv()
    ensures |w.script| <= |w.told| && w.script == w.told[|w.told| - |w.script|..]
  {
  }

  lemma LastTaken(w: World, before: seq<Reply>, scope: Scope)
    requires |before| <= |w.told| && before == w.told[|w.told| - |before|..]
    requires before != [] && w.script == before[1..]
    requires before[0].ending.Returns? && InventoryInScope(scope, before[0].inventory, false)
    ensures LastInScope(w, scope)
  {
  }

  /** The rest of a run, once its journal is on disk: recheck the last applied step, drive the
      open ones, mark the journal completed. */
  method FinishRun(w: World, config: Config, journal: Journal) returns (outcome: Outcome)
    requires w.Inv() && w.disk == Some(journal) && journal.header.scope == config.scope
    modifies w
    ensures w.refused == old(w.refused) && old(w.heard) <= w.heard
    ensures w.Inv() && old(w.saved) <= w.saved && old(w.executed) <= w.executed
    ensures Rechecks(journal) && !StillApplied(journal, old(w.heard), w.heard) ==>
              outcome == Aborted && w.saved == old(w.saved) && w.executed == old(w.executed)
    ensures outcome.RunCompleted? && journal.phase != Completed ==>
              LastInScope(w, config.scope)
    ensures journal.phase == Completed ==> w.saved == old(w.saved) && w.executed == old(w.executed)
    ensures outcome.RunCompleted? ==> w.disk.Some? && w.disk.value.phase == Completed
    ensures outcome.RunPending? ==> w.disk.Some? && w.disk.value.phase == Paused
    ensures outcome.RunNeedsReview? ==> w.disk.Some? && w.disk.value.phase == UnderReview
    ensures !outcome.ReadOnly? && (old(Ready(w.script, config.scope, 24)) ==> outcome.RunCompleted?)
  {
    hide World.HistoryOk, World.DispatchOk, World.RefusalsOk, World.HeardOk, World.RecordsOk, AllBacked, SoundJournal,
        Extends, InventoryInScope, NativeNamesMatch,
      Frontier, Obliging, Steps, Mismatched;
    WorldIsValid(w);
    SoundSize(w.rules, journal);
    var first := Frontier(journal.entries);
    if (first == |journal.entries| || journal.entries[first].state == Planned) && first != 0 {
      var observation := ObserveUntilSettled(w, first - 1, config.scope, 24);
      if observation.None? || observation.value.status != Applied {
        return Aborted;
      }
    }
    if journal.phase == Completed {
      return RunCompleted;
    }
    var driven := DriveSteps(w, config, journal);
    if driven.Stopped? {
      return driven.outcome;
    }
    outcome := CompleteRun(w, config, driven.journal);
  }

  /** One run of the runner, from loading the journal to its end or to a crash. Whatever
      journal earlier crashes left, an obliging environment takes it to completion. */
  method Run(w: World, config: Config) returns (outcome: Outcome)
    requires w.Inv()
    modifies w
    ensures w.Inv() && old(w.saved) <= w.saved && old(w.executed) <= w.executed
    ensures !config.write ==> w.saved == old(w.saved) && w.executed == old(w.executed)
    ensures outcome.ReadOnly? ==> ReportsPlan(w.rules, config, old(w.script), outcome.planned)
    ensures config.write && old(Foreign(w.disk, config)) ==>
              outcome == Aborted && w.saved == old(w.saved) && w.executed == old(w.executed)
    ensures old(w.disk).Some? && old(w.disk).value.phase == Completed ==>
              w.saved == old(w.saved) && w.executed == old(w.executed)
    ensures w.saved != old(w.saved) || w.executed != old(w.executed) ==>
              |old(w.script)| > 2 && Shows(old(w.script)[2].inventory, config.scope)
    ensures old(w.disk).None? && w.saved != old(w.saved) ==>
              |old(w.script)| > 2 && ShowsAddress(old(w.script)[2].inventory, config.scope)
    ensures w.refused != old(w.refused) ==>
              && config.write && old(w.disk).None? && w.saved == old(w.saved) && w.executed == old(w.executed)
              && |old(w.script)| > 2 && !NativeNamesMatch(FirstHeader(config, old(w.script)))
    ensures config.write && old(w.disk).None? && old(Plannable(w.rules, config, w.script))
            && old(Ready(w.script, config.scope, 28)) ==>
              (w.refused != old(w.refused) <==> !NativeNamesMatch(FirstHeader(config, old(w.script))))
    ensures outcome.RunCompleted? ==> w.disk.Some? && w.disk.value.phase == Completed
    ensures outcome.RunPending? ==> w.disk.Some? && w.disk.value.phase == Paused
    ensures outcome.RunNeedsReview? ==> w.disk.Some? && w.disk.value.phase == UnderReview
    ensures old(w.disk).Some? && Rechecks(old(w.disk).value)
            && !StillApplied(old(w.disk).value, old(w.heard), w.heard) ==>
              !outcome.RunCompleted? && w.saved == old(w.saved) && w.executed == old(w.executed)
    ensures config.write && old(Startable(w.rules, w.disk, config, w.script))
            && old(Ready(w.script, config.scope, 28)) ==>
              outcome.RunCompleted?
  {
    hide World.HistoryOk, World.DispatchOk, World.RefusalsOk, World.HeardOk, World.RecordsOk, AllBacked, SoundJournal,
        Extends, InventoryInScope, Startable,
      Plannable, FirstHeader, NativeNamesMatch, NewJournal, Frontier, Obliging, Steps, Mismatched;
    hide ValidEntries, Allocates, AfterApplied, PhaseMatches, ReportsPlan;
    var begun, planned := OpenJournal(w, config, 28);
    if begun.None? {
      return if planned.Some? then ReadOnly(planned.value) else Aborted;
    }
    outcome := FinishRun(w, config, begun.value);
  }

  /** The journal on disk is valid. */
  lemma WorldIsValid(w: World)
    requires w.Inv()
    ensures w.disk.Some? ==> ValidJournal(w.rules, w.disk.value)
  {
    hide ValidJournal;
  }

  /** The journal on disk records only what was answered. */
  lemma WorldIsBacked(w: World)
    requires w.Inv()
    ensures w.disk.Some? ==> AllBacked(w.disk.value, w.heard, w.executed)
  {
    hide ValidJournal, AllBacked, World.DispatchOk, World.RefusalsOk, World.HeardOk;
  }

  lemma CompletedIsBacked(j: Journal, heard: seq<Answer>, executed: seq<Execution>)
    requires AllBacked(j, heard, executed)
    ensures AllBacked(j.(phase := Completed), heard, executed)
  {
    hide Backed;
  }

  lemma UnobservedWhileDispatched(w: World, i: nat)
    requires w.Inv() && w.disk.Some? && i < |w.disk.value.entries| && w.disk.value.entries[i].state == Dispatched
    ensures w.disk.value.entries[i].observation.None?
  {
    hide World.DispatchOk, World.RefusalsOk, World.HeardOk, World.RecordsOk, NativeNamesMatch, InventoryInScope,
      ValidPlan, CandidateBefore, PhaseMatches;
    WorldIsValid(w);
    assert ShapeOk(w.disk.value.entries[i]);
  }

  lemma ReadyNext(script: seq<Reply>, scope: Scope, n: nat)
    requires n > 0
    ensures Ready(script, scope, n) ==>
              && script != [] && script[0].ending.Returns? && InventoryInScope(scope, script[0].inventory, false)
              && Ready(script[1..], scope, n - 1)
  {
  }

  lemma SoundSize(rules: Rules, j: Journal)
    requires SoundJournal(rules, j)
    ensures 1 <= |j.entries| <= 3
  {
  }

  lemma {:induction false} FrontierAt(entries: seq<Entry>, i: nat)
    requires i < |entries| && i <= Frontier(entries)
    ensures if entries[i].state == Done then i < Frontier(entries) else i == Frontier(entries)
  {
  }

  /** Any number of runs over one journal, whatever each one is configured to do. */
  method RunAgainAndAgain(w: World, configs: seq<Config>)
    requires w.Inv()
    modifies w
    ensures w.Inv() && old(w.saved) <= w.saved && old(w.executed) <= w.executed
  {
    for i := 0 to |configs|
      invariant w.Inv() && old(w.saved) <= w.saved && old(w.executed) <= w.executed
    {
      var outcome := Run(w, configs[i]);
    }
  }

  // ---------------------------------------------------------------- what the invariant means

  /** Every journal saved in any sequence of runs, each cut short at any await, passes the
      store's check, so every restart loads a valid journal. */
  lemma SavedJournalsAreValid(w: World, k: nat)
    requires w.Inv() && k < |w.saved|
    ensures ValidJournal(w.rules, w.saved[k])
    ensures k == |w.saved| - 1 ==> w.disk == Some(w.saved[k])
  {
    hide ValidJournal;
  }

  /** What the check ever refused, in any sequence of runs, are new journals whose native names do
      not match; no dispatched, received, applied, stuck or completed journal. */
  lemma OnlyMismatchedPlansAreRefused(w: World, k: nat)
    requires w.Inv() && k < |w.refused|
    ensures var j := w.refused[k];
            && !NativeNamesMatch(j.header) && j.phase == Running
            && (forall i :: 0 <= i < |j.entries| ==> j.entries[i].state == Planned)
            && j !in w.saved
  {
    var j := w.refused[k];
    assert Mismatched(j);
    forall i | 0 <= i < |w.saved| ensures w.saved[i] != j {
      SavedJournalsAreValid(w, i);
    }
  }

  predicate RecordedApplied(e: Entry) {
    e.state == Done && e.receipt.Some? && e.observation.Some? && e.observation.value.status == Applied
  }

  /** Across all runs and crashes, a step is executed at most once, in plan order, and only
      after every earlier step was observed applied with its receipt on disk. */
  lemma AtMostOnceInOrder(w: World, k: nat, m: nat)
    requires w.Inv() && k < |w.executed| && m < |w.executed|
    ensures w.executed[k].index == w.executed[m].index ==> k == m
    ensures k < m ==> w.executed[k].index < w.executed[m].index
    ensures forall i :: 0 <= i < w.executed[m].index ==>
                          i < |w.executed[m].journal.entries| && RecordedApplied(w.executed[m].journal.entries[i])
    ensures w.executed[k].journal.header == w.executed[m].journal.header
  {
    hide NativeNamesMatch, InventoryInScope, ValidPlan, CandidateBefore, PhaseMatches, Active, World.RefusalsOk,
      Mismatched;
    var j := w.executed[m].journal;
    assert SoundJournal(w.rules, j);
    assert Extends(w.executed[k].journal, w.disk.value) && Extends(j, w.disk.value);
    forall i | 0 <= i < w.executed[m].index ensures ShapeOk(j.entries[i]) && j.entries[i].state == Done {
    }
  }

  /** Whatever was once recorded as applied is unchanged in every later saved journal. */
  lemma {:induction false} AppliedIsFinal(w: World, k: nat, m: nat, i: nat)
    requires w.Inv() && k <= m < |w.saved| && i < |w.saved[k].entries| && w.saved[k].entries[i].state == Done
    ensures i < |w.saved[m].entries| && w.saved[m].entries[i] == w.saved[k].entries[i]
    ensures w.saved[m].header == w.saved[k].header
    decreases m
  {
    hide ValidJournal, AllBacked, World.DispatchOk, World.RefusalsOk, World.HeardOk, World.RecordsOk;
    if k < m {
      AppliedIsFinal(w, k, m - 1, i);
      assert Extends(w.saved[m - 1], w.saved[m]);
    }
  }

  /** The polling of step `i` ended with the answer "applied" and this observation. */
  ghost predicate SaidApplied(heard: seq<Answer>, i: nat, observation: Observation) {
    observation.status == Applied && Observed(heard, i, observation)
  }

  lemma AppliedWasSaid(w: World, m: nat, i: nat)
    requires w.Inv() && m < |w.executed| && i < w.executed[m].index
    requires i < |w.executed[m].journal.entries| && RecordedApplied(w.executed[m].journal.entries[i])
    ensures SaidApplied(w.heard, i, w.executed[m].journal.entries[i].observation.value)
  {
    hide ValidJournal, Observed, Receipted, Overlays, World.HeardOk, World.RefusalsOk;
    WorldIsBacked(w);
    assert w.disk.value.entries[i] == w.executed[m].journal.entries[i];
    assert Backed(w.disk.value.entries[i], i, w.heard, w.executed);
  }

  // ---------------------------------------------------------------- runs from an empty journal

  /** Any number of runs, each with its own configuration, from no journal at all, with any answers
      of the environment and a crash at any await. Every journal ever saved passes the store's check,
      keeps what was applied and is the file until the next one; only new plans that contradict the
      native names are refused; and each step is executed at most once over all runs together, in
      plan order, after every earlier one was answered "applied" and recorded so with that answer.
      No journal records an observation that was not the answer to that step, or a receipt other
      than the one its execution returned under the details of that answer; and no step is executed
      but after an inspection that shows the slot in scope. */
  method RunsFromNothing(rules: Rules, script: seq<Reply>, configs: seq<Config>)
    returns (
      file: Option<Journal>, saved: seq<Journal>, refused: seq<Journal>, executed: seq<Execution>, heard: seq<Answer>)
    ensures forall k :: 0 <= k < |saved| ==> ValidJournal(rules, saved[k])
    ensures file == if saved == [] then None else Some(saved[|saved| - 1])
    ensures forall k, m, i ::
              0 <= k <= m < |saved| && 0 <= i < |saved[k].entries| && saved[k].entries[i].state == Done ==>
                i < |saved[m].entries| && saved[m].entries[i] == saved[k].entries[i]
    ensures forall k :: 0 <= k < |refused| ==>
              && !NativeNamesMatch(refused[k].header) && refused[k] !in saved
              && forall i :: 0 <= i < |refused[k].entries| ==> refused[k].entries[i].state == Planned
    ensures forall k, m :: 0 <= k < m < |executed| ==> executed[k].index < executed[m].index
    ensures forall m, i :: 0 <= m < |executed| && 0 <= i < executed[m].index ==>
              && i < |executed[m].journal.entries| && RecordedApplied(executed[m].journal.entries[i])
              && SaidApplied(heard, i, executed[m].journal.entries[i].observation.value)
    ensures forall h :: 0 <= h < |heard| ==>
              heard[h].reply in script && heard[h].reply.ending.Returns? && Final(heard[h].reply)
    ensures forall k :: 0 <= k < |saved| ==> AllBacked(saved[k], heard, executed)
    ensures forall m :: 0 <= m < |executed| ==>
              && file.Some? && Extends(executed[m].journal, file.value) && InspectedInScope(executed[m])
              && exists r :: r in script && r.inventory == executed[m].inspected
  {
    hide ValidJournal, Extends, NativeNamesMatch, Mismatched, AllBacked, SaidApplied;
    var w := new World(rules, script);
    RunAgainAndAgain(w, configs);
    file, saved, refused, executed, heard := w.disk, w.saved, w.refused, w.executed, w.heard;
    forall k | 0 <= k < |saved| ensures ValidJournal(rules, saved[k]) {
      SavedJournalsAreValid(w, k);
    }
    forall k, m, i | 0 <= k <= m < |saved| && 0 <= i < |saved[k].entries| && saved[k].entries[i].state == Done
      ensures i < |saved[m].entries| && saved[m].entries[i] == saved[k].entries[i]
    {
      AppliedIsFinal(w, k, m, i);
    }
    forall k | 0 <= k < |refused|
      ensures !NativeNamesMatch(refused[k].header) && refused[k] !in saved
      ensures forall i :: 0 <= i < |refused[k].entries| ==> refused[k].entries[i].state == Planned
    {
      OnlyMismatchedPlansAreRefused(w, k);
    }
    forall m, i | 0 <= m < |executed| && 0 <= i < executed[m].index
      ensures i < |executed[m].journal.entries| && RecordedApplied(executed[m].journal.entries[i])
      ensures SaidApplied(heard, i, executed[m].journal.entries[i].observation.value)
    {
      AtMostOnceInOrder(w, m, m);
      AppliedWasSaid(w, m, i);
    }
  }

  // ---------------------------------------------------------------- the allocation receipt

  /** In a sound journal the steps after an allocation carry exactly its receipt. */
  lemma CandidateIsCarried(rules: Rules, j: Journal, a: nat, i: nat)
    requires SoundJournal(rules, j) && a < i < |j.entries|
    requires j.entries[a].state == Done && Allocates(j.entries[a].step)
    requires forall x :: a < x < i ==> !Allocates(j.entries[x].step)
    ensures j.entries[i].argCandidate == j.entries[a].receipt && j.entries[a].receipt.Some?
  {
    CandidateReaches(j.entries, a, i);
    assert ShapeOk(j.entries[a]);
  }

  lemma {:induction false} CandidateReaches(entries: seq<Entry>, a: nat, i: nat)
    requires a < i <= |entries| && entries[a].state == Done && Allocates(entries[a].step)
    requires forall x :: a < x < i ==> !Allocates(entries[x].step)
    ensures CandidateBefore(entries, i) == entries[a].receipt
    decreases i
  {
    if i > a + 1 {
      CandidateReaches(entries, a, i - 1);
    }
  }
}
