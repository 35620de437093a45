/** A lease is given back: a release that succeeded is final, and the next client gets the lease at
    once, at the same millisecond. Waiting is bounded by the caller's deadline. */
module RedisHandOver {
  import opened Wrappers
  import opened RedisLease

  // ---------------------------------------------------------------- no set behind a release

  predicate NoSets(s: State, c: nat) {
    forall k :: k in s.commands && s.commands[k].client == c ==> s.commands[k].kind != SetNx
  }

  predicate KeyOfAnother(s: State, c: nat) {
    s.key.Some? ==> s.key.value.token != c
  }

  predicate IsRelease(s: State, c: nat, k: nat) {
    k in s.commands && s.commands[k].client == c && s.commands[k].kind == Release
  }

  /** A client that got its lease has no set on the wire any more, and a late acquisition is
      released only after its own set was answered. */
  predicate SetsOk(s: State, c: nat)
    requires c in s.clients
  {
    var client := s.clients[c];
    && (client.phase.Holding? || client.phase.Draining? || client.phase.Releasing? ==> NoSets(s, c))
    && (client.late.Some? ==> client.phase.Finished? && OnlyCommand(s, c, client.late.value, SetNx))
    && (client.phase.Releasing? ==> IsRelease(s, c, client.phase.command))
    && (forall k :: k in s.commands && IsRelease(s, c, k) ==>
          && NoSets(s, c) && client.late.None? && (client.phase.Releasing? || client.phase.Finished?)
          && (s.commands[k].reply == Some(true) ==> KeyOfAnother(s, c)))
  }

  predicate AllSetsOk(s: State) {
    forall c :: c in s.clients ==> SetsOk(s, c)
  }

  /** What one client does to the world leaves every other client's part alone. */
  lemma SetsOther(s: State, s': State, d: nat)
    requires Alike(s, s', d) && SetsOk(s, d)
    ensures SetsOk(s', d)
  {
    forall k | IsRelease(s', d, k)
      ensures NoSets(s', d) && (s'.commands[k].reply == Some(true) ==> KeyOfAnother(s', d))
    {
      assert IsRelease(s, d, k);
    }
  }

  lemma SetsWhenSent(s: State, c: nat, kind: Kind, client: Client)
    requires Invariant(s) && c in s.clients && SetsOk(s, c) && client.late.None?
    requires match client.phase
             case Acquiring(k, _) => kind == SetNx && NoCommands(s, c)
             case Holding(_) => kind == Refresh && s.clients[c].phase.Holding?
             case Releasing(k, _) =>
               kind == Release && k == s.nextCommand && (s.clients[c].phase.Holding? || s.clients[c].phase.Draining?)
             case Finished => kind == Release && NoCommands(s, c)
             case _ => false
    ensures SetsOk(Send(s, c, kind, client), c)
  {
    var s' := Send(s, c, kind, client);
    forall k | IsRelease(s', c, k) ensures k == s.nextCommand {
      if k != s.nextCommand {
        assert IsRelease(s, c, k);
        assert false;
      }
    }
  }

  lemma SetsWhenExecuted(s: State, k: nat)
    requires Invariant(s) && Enabled(s, Execute(k)) && SetsOk(s, s.commands[k].client)
    ensures SetsOk(AfterExecute(s, k), s.commands[k].client)
  {
    var c := s.commands[k].client;
    var s' := AfterExecute(s, k);
    assert forall j :: j in s'.commands <==> j in s.commands;
    assert forall j :: j in s.commands ==>
                         s'.commands[j] == s.commands[j].(reply := s'.commands[j].reply);
    assert s'.clients[c].phase == s.clients[c].phase && s'.clients[c].late == s.clients[c].late;
    forall j | IsRelease(s', c, j)
      ensures NoSets(s', c) && (s'.commands[j].reply == Some(true) ==> KeyOfAnother(s', c))
    {
      assert IsRelease(s, c, j);
    }
  }

  /** Forgetting the answered command and changing phase. */
  lemma SetsWhenAnswered(s: State, c: nat)
    requires Invariant(s) && Enabled(s, Reply(c)) && SetsOk(s, c)
    ensures SetsOk(Next(s, Reply(c)), c)
  {
    assert ClientInvariant(s, c);
    var k := Awaited(s.clients[c]).value;
    var s0 := Forget(s, k);
    var s' := Next(s, Reply(c));
    assert forall j :: IsRelease(s0, c, j) ==> IsRelease(s, c, j);
    match s.clients[c].phase
    case Draining(_, _) =>
      forall j | IsRelease(s', c, j) ensures j == s.nextCommand {
        if j != s.nextCommand {
          assert IsRelease(s, c, j);
          assert false;
        }
      }
    case Releasing(_, _) =>
      forall j | IsRelease(s', c, j)
        ensures NoSets(s', c) && (s'.commands[j].reply == Some(true) ==> KeyOfAnother(s', c))
      {
        assert IsRelease(s, c, j);
      }
    case Holding(_) => assert NoCommands(s', c);
    case _ =>
  }

  lemma SetsWhenLocal(s: State, c: nat, client: Client)
    requires Invariant(s) && c in s.clients && SetsOk(s, c)
    requires match client.phase
             case Holding(_) => s.clients[c].phase.Holding? && client.late.None?
             case Draining(_, _) => s.clients[c].phase.Holding? && client.late.None?
             case Finished =>
               client.late.None? || (s.clients[c].phase.Acquiring? && OnlyCommand(s, c, client.late.value, SetNx))
             case _ => false
    ensures SetsOk(WithClient(s, c, client), c)
  {
    var s' := WithClient(s, c, client);
    forall k | IsRelease(s', c, k)
      ensures IsRelease(s, c, k) && NoSets(s', c) && (s'.commands[k].reply == Some(true) ==> KeyOfAnother(s', c))
    {
      assert IsRelease(s, c, k);
    }
  }

  lemma SetsWhenFailed(s: State, c: nat, late: Option<nat>)
    requires Invariant(s) && c in s.clients && Awaited(s.clients[c]).Some? && SetsOk(s, c)
    requires late == None || late == Awaited(s.clients[c])
    ensures SetsOk(AfterFailure(s, c, late), c)
  {
    assert ClientInvariant(s, c);
    var client := AfterFailure(s, c, late).clients[c];
    if s.clients[c].phase.Draining? {
      SetsWhenSent(s, c, Release, client);
    } else {
      SetsWhenLocal(s, c, client);
    }
  }

  lemma SetsWhenLate(s: State, c: nat)
    requires Invariant(s) && Enabled(s, LateReply(c)) && SetsOk(s, c)
    ensures SetsOk(Next(s, LateReply(c)), c)
  {
    var s0 := Forget(s, s.clients[c].late.value);
    assert NoCommands(s0, c);
    var s' := Next(s, LateReply(c));
    forall k | IsRelease(s', c, k) ensures k == s.nextCommand {
    }
  }

  /** The client that takes the step, or whose command the server runs. */
  function Actor(s: State, step: Step): Option<nat>
    requires Enabled(s, step)
  {
    match step
    case Tick(_) => None
    case Execute(k) => Some(s.commands[k].client)
    case _ => Some(step.client)
  }

  lemma ActorKeepsSets(s: State, step: Step)
    requires Invariant(s) && AllSetsOk(s) && Enabled(s, step) && Actor(s, step).Some?
    ensures SetsOk(Next(s, step), Actor(s, step).value)
  {
    var c := Actor(s, step).value;
    assert !step.Start? ==> SetsOk(s, c) && ClientInvariant(s, c);
    match step
    case Start(_, config) => assert NoCommands(Next(s, step), c);
    case Poll(_) =>
      var client := Next(s, step).clients[c];
      if client.phase.Finished? {
        SetsWhenLocal(s, c, client);
      } else {
        SetsWhenSent(s, c, SetNx, client);
      }
    case Execute(k) => SetsWhenExecuted(s, k);
    case Reply(_) => SetsWhenAnswered(s, c);
    case Fail(_) => SetsWhenFailed(s, c, None);
    case TimeOut(_) => SetsWhenFailed(s, c, Awaited(s.clients[c]));
    case WakeRenewal(_) => SetsWhenSent(s, c, Refresh, Next(s, step).clients[c]);
    case FinishAction(_) =>
      var client := Next(s, step).clients[c];
      if client.phase.Draining? {
        SetsWhenLocal(s, c, client);
      } else {
        SetsWhenSent(s, c, Release, client);
      }
    case LateReply(_) => SetsWhenLate(s, c);
  }

  /** Client `d` and its commands are the same in both states, and the key has not become its own. */
  predicate Alike(s: State, s': State, d: nat) {
    && d in s.clients && d in s'.clients && s'.clients[d] == s.clients[d]
    && (forall k :: k in s.commands && s.commands[k].client == d ==>
        k in s'.commands && s'.commands[k] == s.commands[k])
    && (forall k :: k in s'.commands && s'.commands[k].client == d ==>
        k in s.commands && s.commands[k] == s'.commands[k])
    && (s'.key == s.key || KeyOfAnother(s', d))
  }

  lemma OthersStayOnReply(s: State, c: nat, d: nat)
    requires Invariant(s) && Enabled(s, Reply(c)) && c != d && d in s.clients
    ensures Alike(s, Next(s, Reply(c)), d)
  {
    assert ClientInvariant(s, c);
    var k := Awaited(s.clients[c]).value;
    assert s.commands[k].client == c;
    var s0 := Forget(s, k);
    assert Alike(s, s0, d);
    var s' := AfterReply(s0, c, s.commands[k].sentAt, s.commands[k].reply.value);
    assert Alike(s0, s', d);
  }

  lemma OthersStayOnLateReply(s: State, c: nat, d: nat)
    requires Invariant(s) && Enabled(s, LateReply(c)) && c != d && d in s.clients
    ensures Alike(s, Next(s, LateReply(c)), d)
  {
    assert ClientInvariant(s, c);
    assert Alike(s, Forget(s, s.clients[c].late.value), d);
  }

  lemma OthersStayOnExecute(s: State, k: nat, d: nat)
    requires Enabled(s, Execute(k)) && s.commands[k].client != d && d in s.clients
    ensures Alike(s, Next(s, Execute(k)), d)
  {
  }

  lemma OthersStayOnSend(s: State, s': State, c: nat, d: nat)
    requires s.nextCommand !in s.commands && c != d && d in s.clients
    requires s'.key == s.key && c in s'.clients && s'.clients == s.clients[c := s'.clients[c]]
    requires s'.commands == s.commands || (
               && s.nextCommand in s'.commands && s'.commands[s.nextCommand].client == c
               && s'.commands == s.commands[s.nextCommand := s'.commands[s.nextCommand]])
    ensures Alike(s, s', d)
  {
  }

  lemma OthersStayOnFailure(s: State, c: nat, late: Option<nat>, d: nat)
    requires s.nextCommand !in s.commands && c != d && c in s.clients && d in s.clients
    ensures Alike(s, AfterFailure(s, c, late), d)
  {
    OthersStayOnSend(s, AfterFailure(s, c, late), c, d);
  }

  lemma OthersStayOnTick(s: State, to: int, d: nat)
    requires d in s.clients
    ensures Alike(s, s.(now := to), d)
  {
  }

  lemma OthersStayOnTimer(s: State, step: Step, d: nat)
    requires step.Start? || step.Poll? || step.WakeRenewal? || step.FinishAction?
    requires s.nextCommand !in s.commands && Enabled(s, step) && step.client != d && d in s.clients
    ensures Alike(s, Next(s, step), d)
  {
    OthersStayOnSend(s, Next(s, step), step.client, d);
  }

  /** A step touches the record and the commands of its actor alone. */
  lemma OthersStay(s: State, step: Step, d: nat)
    requires Invariant(s) && Enabled(s, step) && Actor(s, step) != Some(d) && d in Next(s, step).clients
    ensures Alike(s, Next(s, step), d)
  {
    assert d in s.clients && s.nextCommand !in s.commands;
    hide Invariant, Alike, AfterFailure, AfterReply, AfterExecute, AfterPoll, Send, Forget, WithClient;
    match step
    case Tick(to) => OthersStayOnTick(s, to, d);
    case Reply(c) => OthersStayOnReply(s, c, d);
    case LateReply(c) => OthersStayOnLateReply(s, c, d);
    case Execute(k) => OthersStayOnExecute(s, k, d);
    case Fail(c) => OthersStayOnFailure(s, c, None, d);
    case TimeOut(c) => OthersStayOnFailure(s, c, Awaited(s.clients[c]), d);
    case _ => OthersStayOnTimer(s, step, d);
  }

  lemma StepKeepsSets(s: State, step: Step)
    requires Invariant(s) && AllSetsOk(s) && Enabled(s, step)
    ensures AllSetsOk(Next(s, step))
  {
    var s' := Next(s, step);
    if Actor(s, step).Some? {
      ActorKeepsSets(s, step);
    }
    forall d | d in s'.clients && Actor(s, step) != Some(d) ensures SetsOk(s', d) {
      hide SetsOk, Next, Enabled, Invariant;
      OthersStay(s, step, d);
      SetsOther(s, s', d);
    }
  }

  lemma {:induction false} RunKeepsSets(s: State, steps: seq<Step>)
    requires Invariant(s) && AllSetsOk(s) && Feasible(s, steps)
    ensures Invariant(Run(s, steps)) && AllSetsOk(Run(s, steps))
    decreases |steps|
  {
    if steps != [] {
      StepKeepsInvariant(s, steps[0]);
      StepKeepsSets(s, steps[0]);
      RunKeepsSets(Next(s, steps[0]), steps[1..]);
    }
  }

  lemma ReachableIsOk(s: State)
    requires Reachable(s)
    ensures Invariant(s) && AllSetsOk(s)
  {
    var steps :| Feasible(INITIAL, steps) && RedisLease.Run(INITIAL, steps) == s;
    RunKeepsSets(INITIAL, steps);
  }

  // ---------------------------------------------------------------- a release is final

  /** The client is done and can never own the key again. */
  predicate Gone(s: State, c: nat) {
    && c in s.clients && s.clients[c].late.None?
    && (s.clients[c].phase.Releasing? || s.clients[c].phase.Finished?)
    && NoSets(s, c) && KeyOfAnother(s, c)
  }

  lemma ExecuteKeepsGone(s: State, k: nat)
    requires Enabled(s, Execute(k)) && Gone(s, s.commands[k].client)
    ensures Gone(AfterExecute(s, k), s.commands[k].client)
  {
    var s' := AfterExecute(s, k);
    assert forall j :: j in s'.commands <==> j in s.commands;
  }

  lemma StepKeepsGone(s: State, step: Step, c: nat)
    requires Invariant(s) && Gone(s, c) && Enabled(s, step)
    ensures Gone(Next(s, step), c)
  {
    if Actor(s, step) != Some(c) {
      hide Next, Enabled, Invariant;
      OthersStay(s, step, c);
    } else if step.Execute? {
      ExecuteKeepsGone(s, step.command);
    }
  }

  lemma {:induction false} RunKeepsGone(s: State, c: nat, steps: seq<Step>)
    requires Invariant(s) && Gone(s, c) && Feasible(s, steps)
    ensures Gone(Run(s, steps), c)
    decreases |steps|
  {
    if steps != [] {
      StepKeepsInvariant(s, steps[0]);
      StepKeepsGone(s, steps[0], c);
      RunKeepsGone(Next(s, steps[0]), c, steps[1..]);
    }
  }

  /** Once the server has answered a release with success, whether of a held lease or of one acquired
      too late, the client neither owns the key nor believes it does, for the rest of every run. */
  lemma ReleasedForGood(s: State, c: nat, k: nat, steps: seq<Step>)
    requires Reachable(s) && IsRelease(s, c, k) && s.commands[k].reply == Some(true)
    requires Feasible(s, steps)
    ensures !Stores(Run(s, steps), c) && !Believes(Run(s, steps), c)
  {
    ReachableIsOk(s);
    assert SetsOk(s, c);
    RunKeepsGone(s, c, steps);
  }

  // ---------------------------------------------------------------- giving back

  /** The release on the wire executes and is answered. */
  lemma ReleaseNow(s: State, c: nat) returns (s': State)
    requires Reachable(s) && c in s.clients && s.clients[c].phase.Releasing?
    requires var k := s.clients[c].phase.command; IsRelease(s, c, k) && s.commands[k].reply.None?
    ensures Reachable(s') && s'.now == s.now
    ensures s'.key == if Stores(s, c) then None else s.key
    ensures c in s'.clients && s'.clients == s.clients[c := s'.clients[c]]
    ensures s'.clients[c].phase.Finished? && (s'.clients[c].lost <==> s.clients[c].lost || !Stores(s, c))
  {
    hide Reachable;
    var k := s.clients[c].phase.command;
    var s1 := ReachNext(s, Execute(k));
    assert s1.commands[k].reply == Some(Stores(s, c));
    assert s1.clients == s.clients;
    s' := ReachNext(s1, Reply(c));
  }

  /** The refresh in flight when the action settles is awaited first. */
  predicate RefreshRefused(s: State, c: nat)
    requires c in s.clients
  {
    var phase := s.clients[c].phase;
    phase.Holding? && phase.renewal.Refreshing? && phase.renewal.command in s.commands
    && s.commands[phase.renewal.command].reply == Some(false)
  }

  /** The command that is awaited while the client drains. */
  predicate Drains(s: State, c: nat, k: nat) {
    && c in s.clients && s.clients[c].phase.Draining? && s.clients[c].phase.command == k
    && k in s.commands && s.commands[k].client == c && s.commands[k].kind == Refresh
    && s.clients[c].config.Accepted() && s.nextCommand !in s.commands
  }

  lemma DrainExecuted(s: State, c: nat, k: nat) returns (s': State)
    requires Reachable(s) && Drains(s, c, k) && s.commands[k].reply.None?
    ensures Reachable(s') && Drains(s', c, k) && s'.now == s.now && (Stores(s', c) <==> Stores(s, c))
    ensures !Stores(s, c) ==> s'.key == s.key
    ensures s'.clients == s.clients[c := s'.clients[c]] && s'.clients[c].lost == s.clients[c].lost
    ensures s'.commands[k].reply == Some(Stores(s, c))
  {
    hide Reachable;
    s' := ReachNext(s, Execute(k));
  }

  lemma DrainNow(s: State, c: nat, k: nat) returns (s': State)
    requires Reachable(s) && Drains(s, c, k)
    ensures Reachable(s') && s'.now == s.now && (Stores(s', c) <==> Stores(s, c))
    ensures !Stores(s, c) ==> s'.key == s.key
    ensures c in s'.clients && s'.clients == s.clients[c := s'.clients[c]]
    ensures s'.clients[c].phase.Releasing?
    ensures var j := s'.clients[c].phase.command; IsRelease(s', c, j) && s'.commands[j].reply.None?
    ensures var reply := s.commands[k].reply;
            s'.clients[c].lost <==> s.clients[c].lost || reply == Some(false) || (reply.None? && !Stores(s, c))
  {
    var s1 := s;
    if s.commands[k].reply.None? {
      s1 := DrainExecuted(s, c, k);
    }
    hide Reachable;
    s' := ReachNext(s1, Reply(c));
  }

  /** A holder whose action settles gives the lease back within the same millisecond when the server
      answers promptly: its key is deleted, anybody else's key is left alone, and the caller learns of
      a loss exactly if it had lost the lease before, its last refresh was refused, or the key is not
      its own now. */
  lemma GivesBack(s: State, c: nat) returns (s': State)
    requires Reachable(s) && c in s.clients && s.clients[c].phase.Holding?
    ensures Reachable(s') && s'.now == s.now
    ensures s'.key == if Stores(s, c) then None else s.key
    ensures c in s'.clients && s'.clients == s.clients[c := s'.clients[c]]
    ensures s'.clients[c].phase.Finished?
    ensures s'.clients[c].lost <==> s.clients[c].lost || RefreshRefused(s, c) || !Stores(s, c)
  {
    ReachableIsOk(s);
    assert ClientInvariant(s, c);
    assert s.nextCommand !in s.commands;
    hide Reachable, Invariant, AllSetsOk;
    var s1 := ReachNext(s, FinishAction(c));
    if s1.clients[c].phase.Draining? {
      assert Drains(s1, c, s1.clients[c].phase.command);
      s1 := DrainNow(s1, c, s1.clients[c].phase.command);
    }
    s' := ReleaseNow(s1, c);
  }

  /** A set that answers with success only after its caller gave up is released too. */
  lemma LateAcquisitionIsReleased(s: State, c: nat) returns (s': State)
    requires Reachable(s) && Enabled(s, LateReply(c)) && s.commands[s.clients[c].late.value].reply == Some(true)
    ensures Reachable(s') && s'.now == s.now
    ensures s'.key == if Stores(s, c) then None else s.key
    ensures s'.clients == s.clients[c := s.clients[c].(late := None)]
  {
    ReachableIsOk(s);
    hide Reachable, Invariant, AllSetsOk;
    var s1 := ReachNext(s, LateReply(c));
    s' := ReachNext(s1, Execute(s.nextCommand));
  }

  /** The watched set of a client that gave up executes and answers. */
  lemma WatchedSetIsUndone(s: State, c: nat) returns (s': State)
    requires Reachable(s) && c in s.clients && s.clients[c].phase.Finished? && s.clients[c].late.Some?
    requires var k := s.clients[c].late.value;
        k in s.commands && s.commands[k] == Command(c, SetNx, s.commands[k].sentAt, None)
    ensures Reachable(s') && s'.now == s.now
    ensures s'.key == if Live(s.key, s.now).None? then None else s.key
    ensures c in s'.clients && s'.clients[c].phase.Finished? && s'.clients[c].late.None?
  {
    ReachableIsOk(s);
    assert ClientInvariant(s, c);
    hide Reachable, Invariant, AllSetsOk, ClientInvariant;
    var k := s.clients[c].late.value;
    var s1 := ReachNext(s, Execute(k));
    assert s1.commands[k].reply == Some(Live(s.key, s.now).None?);
    if Live(s.key, s.now).None? {
      s' := LateAcquisitionIsReleased(s1, c);
    } else {
      s' := ReachNext(s1, LateReply(c));
    }
  }

  /** A set that executes after its caller's timeout leaves nothing behind: it is watched, and undone
      if it took the key. */
  lemma LateSetIsUndone(s: State, c: nat) returns (s': State)
    requires Reachable(s) && Enabled(s, TimeOut(c)) && s.clients[c].phase.Acquiring?
    requires var k := s.clients[c].phase.command; k in s.commands && s.commands[k].reply.None?
    ensures Reachable(s') && s'.now == s.now
    ensures s'.key == if Live(s.key, s.now).None? then None else s.key
    ensures c in s'.clients && s'.clients[c].phase.Finished? && s'.clients[c].late.None?
  {
    ReachableIsOk(s);
    assert ClientInvariant(s, c);
    hide Reachable, Invariant, AllSetsOk;
    var s1 := ReachNext(s, TimeOut(c));
    s' := WatchedSetIsUndone(s1, c);
  }

  // ---------------------------------------------------------------- what the caller learns

  /** The step tells the client that a refresh or release found another token, or that a refresh
      was not answered. An unanswered release is only reported to the cleanup handler. */
  predicate LearnsOfLoss(s: State, step: Step, c: nat)
    requires c in s.clients
  {
    var awaited := Awaited(s.clients[c]);
    && awaited.Some? && awaited.value in s.commands
    && var command := s.commands[awaited.value];
       || (step == Reply(c) && command.kind != SetNx && command.reply == Some(false))
       || ((step == Fail(c) || step == TimeOut(c)) && command.kind == Refresh)
  }

  lemma LossOfActor(s: State, step: Step, c: nat)
    requires c in s.clients && ClientInvariant(s, c) && SetsOk(s, c) && Enabled(s, step) && Actor(s, step) == Some(c)
    ensures c in Next(s, step).clients
    ensures Next(s, step).clients[c].lost <==> s.clients[c].lost || LearnsOfLoss(s, step, c)
  {
  }

  lemma LossOfOthers(s: State, step: Step, c: nat)
    requires c in s.clients && Enabled(s, step) && Actor(s, step) != Some(c)
    ensures c in Next(s, step).clients && Next(s, step).clients[c].lost == s.clients[c].lost
    ensures !LearnsOfLoss(s, step, c)
  {
  }

  lemma LossIsExact(s: State, step: Step, c: nat)
    requires Reachable(s) && Enabled(s, step) && c in s.clients
    ensures c in Next(s, step).clients
    ensures Next(s, step).clients[c].lost <==> s.clients[c].lost || LearnsOfLoss(s, step, c)
  {
    ReachableIsOk(s);
    assert ClientInvariant(s, c) && SetsOk(s, c);
    hide *;
    if Actor(s, step) == Some(c) {
      LossOfActor(s, step, c);
    } else {
      LossOfOthers(s, step, c);
    }
  }

  // ---------------------------------------------------------------- taking over

  /** A waiter whose poll is due before its deadline gets a free key at once. */
  lemma WaiterAcquires(s: State, d: nat) returns (s': State)
    requires Reachable(s) && Enabled(s, Poll(d)) && s.now < s.clients[d].deadline && Live(s.key, s.now).None?
    ensures Reachable(s') && s'.now == s.now && Stores(s', d)
    ensures d in s'.clients && s'.clients[d].phase.Holding? && s'.clients[d].lost == s.clients[d].lost
    ensures s'.key.value.expiresAt == s.now + s.clients[d].config.leaseMs
  {
    ReachableIsOk(s);
    hide Reachable, Invariant, AllSetsOk;
    var s1 := ReachNext(s, Poll(d));
    assert s1.clients[d].phase.Acquiring? && s1.clients[d].phase.command == s.nextCommand;
    var s2 := ReachNext(s1, Execute(s.nextCommand));
    s' := ReachNext(s2, Reply(d));
  }

  /** The lease changes hands at the instant the holder is done. */
  lemma HandsOver(s: State, c: nat, d: nat) returns (s': State)
    requires Reachable(s) && c in s.clients && s.clients[c].phase.Holding? && Stores(s, c)
    requires Enabled(s, Poll(d)) && s.now < s.clients[d].deadline
    ensures Reachable(s') && s'.now == s.now && Stores(s', d)
    ensures d in s'.clients && s'.clients[d].phase.Holding?
  {
    var s1 := GivesBack(s, c);
    s' := WaiterAcquires(s1, d);
  }

  lemma LateHandsOver(s: State, c: nat, d: nat) returns (s': State)
    requires Reachable(s) && Enabled(s, LateReply(c)) && s.commands[s.clients[c].late.value].reply == Some(true)
    requires Stores(s, c) && Enabled(s, Poll(d)) && s.now < s.clients[d].deadline
    ensures Reachable(s') && s'.now == s.now && Stores(s', d)
    ensures d in s'.clients && s'.clients[d].phase.Holding?
  {
    ReachableIsOk(s);
    assert SetsOk(s, c);
    var s1 := LateAcquisitionIsReleased(s, c);
    s' := WaiterAcquires(s1, d);
  }

  // ---------------------------------------------------------------- waiting

  /** No timer of the acquire loop is set past the deadline, and a waiter has lost nothing yet. */
  predicate WaitOk(client: Client, now: int) {
    client.phase.Polling? || client.phase.Acquiring? ==>
      && !client.lost
      && now <= Timer(client).value <= client.deadline
      && (client.phase.Polling? ==> client.phase.until <= now + client.config.pollIntervalMs)
  }

  predicate AllWaitOk(s: State) {
    forall c :: c in s.clients ==> WaitOk(s.clients[c], s.now)
  }

  lemma AnswerKeepsWait(s: State, c: nat, sentAt: int, ok: bool)
    requires c in s.clients && s.clients[c].config.Accepted() && WaitOk(s.clients[c], s.now)
    ensures WaitOk(AfterReply(s, c, sentAt, ok).clients[c], s.now)
  {
  }

  lemma FailureKeepsWait(s: State, c: nat, late: Option<nat>)
    requires c in s.clients && WaitOk(s.clients[c], s.now)
    ensures WaitOk(AfterFailure(s, c, late).clients[c], s.now)
  {
  }

  lemma TurnKeepsWait(s: State, step: Step)
    requires step.Poll? || step.WakeRenewal? || step.FinishAction? || step.LateReply?
    requires Enabled(s, step) && s.clients[step.client].config.Accepted() && WaitOk(s.clients[step.client], s.now)
    requires s.clients[step.client].late.Some? ==> s.clients[step.client].phase.Finished?
    ensures WaitOk(Next(s, step).clients[step.client], s.now)
  {
  }

  lemma ActorKeepsWait(s: State, step: Step)
    requires Invariant(s) && AllWaitOk(s) && Enabled(s, step) && Actor(s, step).Some?
    ensures var c := Actor(s, step).value; WaitOk(Next(s, step).clients[c], s.now)
  {
    var c := Actor(s, step).value;
    assert c in s.clients ==> WaitOk(s.clients[c], s.now) && ClientInvariant(s, c);
    hide Invariant, AllWaitOk, AfterReply, AfterFailure, AfterPoll, Send;
    match step
    case Reply(_) =>
      var k := Awaited(s.clients[c]).value;
      AnswerKeepsWait(Forget(s, k), c, s.commands[k].sentAt, s.commands[k].reply.value);
    case Fail(_) => FailureKeepsWait(s, c, None);
    case TimeOut(_) => FailureKeepsWait(s, c, Awaited(s.clients[c]));
    case Execute(k) =>
    case Start(_, _) =>
    case _ => TurnKeepsWait(s, step);
  }

  lemma StepKeepsWait(s: State, step: Step)
    requires Invariant(s) && AllWaitOk(s) && Enabled(s, step)
    ensures AllWaitOk(Next(s, step))
  {
    var s' := Next(s, step);
    if Actor(s, step).Some? {
      ActorKeepsWait(s, step);
      assert s'.now == s.now;
      hide Next, Enabled, Invariant, WaitOk, Actor;
      forall d | d in s'.clients && Actor(s, step) != Some(d) ensures WaitOk(s'.clients[d], s'.now) {
        OthersStay(s, step, d);
      }
    }
  }

  lemma {:induction false} RunKeepsWait(s: State, steps: seq<Step>)
    requires Invariant(s) && AllWaitOk(s) && Feasible(s, steps)
    ensures AllWaitOk(Run(s, steps))
    decreases |steps|
  {
    if steps != [] {
      StepKeepsInvariant(s, steps[0]);
      StepKeepsWait(s, steps[0]);
      RunKeepsWait(Next(s, steps[0]), steps[1..]);
    }
  }

  /** The wait ends by the deadline, and not before it while the server keeps answering: a refused
      set is tried again within one poll interval, and a turn that is due before the deadline sends. */
  lemma WaitsUntilTheDeadline(s: State, c: nat)
    requires Reachable(s) && c in s.clients && (s.clients[c].phase.Polling? || s.clients[c].phase.Acquiring?)
    ensures s.now <= s.clients[c].deadline && !s.clients[c].lost
    ensures Enabled(s, Poll(c)) ==>
              (Next(s, Poll(c)).clients[c].phase.Acquiring? <==> s.now < s.clients[c].deadline)
    ensures Enabled(s, Reply(c)) && s.commands[s.clients[c].phase.command].reply == Some(false) ==>
              var after := Next(s, Reply(c)).clients[c].phase;
              && (after.Polling? <==> s.now < s.clients[c].deadline)
              && (after.Polling? ==> s.now < after.until <= s.now + s.clients[c].config.pollIntervalMs)
  {
    var steps :| Feasible(INITIAL, steps) && RedisLease.Run(INITIAL, steps) == s;
    RunKeepsWait(INITIAL, steps);
    RunKeepsInvariant(INITIAL, steps);
    assert WaitOk(s.clients[c], s.now) && ClientInvariant(s, c);
  }

  lemma StepKeepsTerms(s: State, step: Step, c: nat)
    requires c in s.clients && Enabled(s, step)
    ensures c in Next(s, step).clients
    ensures var client := Next(s, step).clients[c];
            client.deadline == s.clients[c].deadline && client.config == s.clients[c].config
  {
  }

  /** The deadline is fixed by the call: its own wait, counted from its start. */
  lemma {:induction false} DeadlineIsTheCallers(s: State, c: nat, config: Config, start: int, steps: seq<Step>)
    requires Feasible(s, steps)
    requires c !in s.clients ==> s.now == start && steps != [] && steps[0] == Start(c, config)
    requires c in s.clients ==>
               s.clients[c].config == config && s.clients[c].deadline == start + config.waitTimeoutMs
    ensures c in Run(s, steps).clients
    ensures var client := Run(s, steps).clients[c];
            client.config == config && client.deadline == start + config.waitTimeoutMs
    decreases |steps|
  {
    if steps != [] {
      if c in s.clients {
        StepKeepsTerms(s, steps[0], c);
      }
      DeadlineIsTheCallers(Next(s, steps[0]), c, config, start, steps[1..]);
    }
  }

  // ---------------------------------------------------------------- cleaning up in time

  /** A release is given its cleanup time and no more. */
  predicate ReleaseTimely(s: State, c: nat)
    requires c in s.clients
  {
    match s.clients[c].phase
    case Releasing(k, until) =>
      k in s.commands && until == s.commands[k].sentAt + s.clients[c].config.cleanupTimeoutMs && s.now <= until
    case _ => true
  }

  predicate AllReleasesTimely(s: State) {
    forall c :: c in s.clients ==> ReleaseTimely(s, c)
  }

  lemma ActorKeepsTimely(s: State, step: Step)
    requires Invariant(s) && AllReleasesTimely(s) && Enabled(s, step) && Actor(s, step).Some?
    ensures ReleaseTimely(Next(s, step), Actor(s, step).value)
  {
    var c := Actor(s, step).value;
    assert c in s.clients ==> ReleaseTimely(s, c) && ClientInvariant(s, c);
    match step
    case Reply(_) => ReplyIsTimely(s, c);
    case LateReply(_) =>
    case _ =>
  }

  lemma ReplyIsTimely(s: State, c: nat)
    requires Invariant(s) && Enabled(s, Reply(c))
    ensures ReleaseTimely(Next(s, Reply(c)), c)
  {
    assert ClientInvariant(s, c);
  }

  lemma StepKeepsTimely(s: State, step: Step)
    requires Invariant(s) && AllReleasesTimely(s) && Enabled(s, step)
    ensures AllReleasesTimely(Next(s, step))
  {
    var s' := Next(s, step);
    if Actor(s, step).Some? {
      ActorKeepsTimely(s, step);
      assert s'.now == s.now;
      hide Next, Enabled, Actor;
      forall d | d in s'.clients && Actor(s, step) != Some(d) ensures ReleaseTimely(s', d) {
        OthersStay(s, step, d);
        TimelyStays(s, s', d);
      }
    }
  }

  lemma TimelyStays(s: State, s': State, d: nat)
    requires Invariant(s) && Alike(s, s', d) && s'.now == s.now && ReleaseTimely(s, d)
    ensures ReleaseTimely(s', d)
  {
    assert ClientInvariant(s, d);
  }

  lemma {:induction false} RunKeepsTimely(s: State, steps: seq<Step>)
    requires Invariant(s) && AllReleasesTimely(s) && Feasible(s, steps)
    ensures AllReleasesTimely(Run(s, steps))
    decreases |steps|
  {
    if steps != [] {
      StepKeepsInvariant(s, steps[0]);
      StepKeepsTimely(s, steps[0]);
      RunKeepsTimely(Next(s, steps[0]), steps[1..]);
    }
  }

  /** Cleaning up never holds the caller longer than its cleanup timeout: a release that is not
      answered by then is given up at that instant, without a word to the caller. */
  lemma CleanupIsBounded(s: State, c: nat)
    requires Reachable(s) && c in s.clients && s.clients[c].phase.Releasing?
    ensures var k := s.clients[c].phase.command;
            && k in s.commands
            && s.now <= s.clients[c].phase.timesOutAt
               == s.commands[k].sentAt + s.clients[c].config.cleanupTimeoutMs
    ensures s.now == s.clients[c].phase.timesOutAt ==>
              && Enabled(s, TimeOut(c))
              && Next(s, TimeOut(c)).clients[c] == s.clients[c].(phase := Finished)
  {
    var steps :| Feasible(INITIAL, steps) && RedisLease.Run(INITIAL, steps) == s;
    RunKeepsTimely(INITIAL, steps);
    assert ReleaseTimely(s, c);
  }

  /** A caller that gives up waiting for its set keeps an eye on it; one whose set was rejected has
      nothing to watch. */
  lemma OnlyTimeoutsAreWatched(s: State, c: nat)
    requires Reachable(s) && c in s.clients && s.clients[c].phase.Acquiring?
    ensures Enabled(s, Fail(c)) && Next(s, Fail(c)).clients[c].late == None
    ensures Enabled(s, TimeOut(c)) ==> Next(s, TimeOut(c)).clients[c].late == Some(s.clients[c].phase.command)
  {
  }
}
