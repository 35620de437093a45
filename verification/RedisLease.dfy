/** The Redis lease that serialises work on one DNS zone.

    Every call of the lease function is one client with its own token. Clients, the
    Redis server and the global millisecond clock take turns in any order: a command
    may execute at any instant after it was sent, even after its sender gave up on it.
    Timers are punctual, so the clock never passes a deadline that is still pending. */
module RedisLease {
  import opened Wrappers

  // ---------------------------------------------------------------- options

  datatype Config = Config(
    leaseMs: int,
    waitTimeoutMs: int,
    pollIntervalMs: int,
    refreshIntervalMs: int,
    commandTimeoutMs: int,
    cleanupTimeoutMs: int)
  {
    /** The only checks the code makes before it acquires. */
    predicate Accepted() {
      && leaseMs > 0 && waitTimeoutMs > 0 && pollIntervalMs > 0
      && refreshIntervalMs > 0 && commandTimeoutMs > 0 && cleanupTimeoutMs > 0
      && refreshIntervalMs + commandTimeoutMs < leaseMs
    }

    /** One refresh round trip and the next one's timeout both fit in the lease. */
    predicate HasMargin() {
      refreshIntervalMs + 2 * commandTimeoutMs <= leaseMs
    }
  }

  function Min(a: int, b: int): int { if a < b then a else b }
  function Max(a: int, b: int): int { if a < b then b else a }

  /** The options in force when a caller passes a lease length and nothing else. */
  function DefaultsFor(leaseMs: int): Config {
    var command := Min(5000, Max(100, leaseMs / 6));
    Config(leaseMs, 30000, 100, Max(1000, leaseMs / 3), command, Min(2000, command))
  }

  const BUILT_IN := DefaultsFor(120000)

  /** The built-in lease has the margin. A shorter lease is accepted from 1201 ms on, but
      its derived options only have the margin from 1498 ms on. */
  lemma DefaultsHaveMarginExactlyFrom1498(leaseMs: int)
    ensures BUILT_IN == Config(120000, 30000, 100, 40000, 5000, 2000)
    ensures BUILT_IN.Accepted() && BUILT_IN.HasMargin()
    ensures leaseMs > 0 ==> (DefaultsFor(leaseMs).Accepted() <==> leaseMs >= 1201)
    ensures leaseMs > 0 ==>
              (DefaultsFor(leaseMs).Accepted() && DefaultsFor(leaseMs).HasMargin() <==> leaseMs >= 1498)
  {
    var q := leaseMs / 6;
    assert 6 * q <= leaseMs < 6 * q + 6;
    var r := leaseMs / 3;
    assert 3 * r <= leaseMs < 3 * r + 3;
  }

  // ---------------------------------------------------------------- the server

  datatype Stored = Stored(token: nat, expiresAt: int)

  /** What `get` sees: Redis drops a key once the clock is past its expiry. */
  function Live(key: Option<Stored>, now: int): Option<Stored> {
    if key.Some? && now <= key.value.expiresAt then key else None
  }

  datatype Kind = SetNx | Refresh | Release

  /** Effect of one command on the key, and whether it reports success. */
  function Serve(kind: Kind, token: nat, leaseMs: int, key: Option<Stored>, now: int): (Option<Stored>, bool) {
    var live := Live(key, now);
    match kind
    case SetNx =>
      if live.None? then (Some(Stored(token, now + leaseMs)), true) else (key, false)
    case Refresh =>
      if live.Some? && live.value.token == token then (Some(Stored(token, now + leaseMs)), true) else (key, false)
    case Release =>
      if live.Some? && live.value.token == token then (None, true) else (key, false)
  }

  /** The key as the server keeps it, changed in place by `SET NX PX` and the two scripts. */
  class RedisKey {
    var stored: Option<Stored>

    constructor ()
      ensures stored == None
    {
      stored := None;
    }

    method SetIfAbsent(token: nat, leaseMs: int, now: int) returns (ok: bool)
      modifies this
      ensures (stored, ok) == Serve(SetNx, token, leaseMs, old(stored), now)
      ensures ok <==> old(stored).None? || old(stored).value.expiresAt < now
      ensures stored == if ok then Some(Stored(token, now + leaseMs)) else old(stored)
    {
      ok := stored.None? || now > stored.value.expiresAt;
      if ok {
        stored := Some(Stored(token, now + leaseMs));
      }
    }

    method RefreshIfOwned(token: nat, leaseMs: int, now: int) returns (ok: bool)
      modifies this
      ensures (stored, ok) == Serve(Refresh, token, leaseMs, old(stored), now)
      ensures ok <==> old(stored).Some? && now <= old(stored).value.expiresAt && old(stored).value.token == token
      ensures stored == if ok then Some(Stored(token, now + leaseMs)) else old(stored)
    {
      ok := stored.Some? && now <= stored.value.expiresAt && stored.value.token == token;
      if ok {
        stored := Some(stored.value.(expiresAt := now + leaseMs));
      }
    }

    method ReleaseIfOwned(token: nat, leaseMs: int, now: int) returns (ok: bool)
      modifies this
      ensures (stored, ok) == Serve(Release, token, leaseMs, old(stored), now)
      ensures ok <==> old(stored).Some? && now <= old(stored).value.expiresAt && old(stored).value.token == token
      ensures ok ==> forall t :: Live(stored, t).None?
      ensures !ok ==> stored == old(stored)
    {
      ok := stored.Some? && now <= stored.value.expiresAt && stored.value.token == token;
      if ok {
        stored := None;
      }
    }
  }

  // ---------------------------------------------------------------- clients

  /** A command on the wire; `reply` is set when the server has executed it. */
  datatype Command = Command(client: nat, kind: Kind, sentAt: int, reply: Option<bool>)

  datatype Renewal =
    | Sleeping(until: int)
    | Refreshing(command: nat, timesOutAt: int)
    | Stopped

  datatype Phase =
    | Polling(until: int)                            // before the next SET of the acquire loop
    | Acquiring(command: nat, timesOutAt: int)
    | Holding(renewal: Renewal)                      // the protected action runs
    | Draining(command: nat, timesOutAt: int)        // action settled, last refresh awaited
    | Releasing(command: nat, timesOutAt: int)
    | Finished

  /** `confirmedAt` and `expiry` are history: when the last confirmed SET or refresh was
      sent, and the expiry the server last gave this client's token. */
  datatype Client = Client(
    config: Config,
    deadline: int,
    phase: Phase,
    lost: bool,
    late: Option<nat>,                               // a timed-out SET whose reply is still watched
    confirmedAt: int,
    expiry: int)

  datatype State = State(
    now: int,
    key: Option<Stored>,
    clients: map<nat, Client>,
    commands: map<nat, Command>,
    nextCommand: nat)

  const INITIAL := State(0, None, map[], map[], 0)

  /** The lease handed to the action is in use and `assertOwned` would not throw. */
  predicate Believes(s: State, c: nat) {
    && c in s.clients
    && !s.clients[c].lost
    && (s.clients[c].phase.Holding? || s.clients[c].phase.Draining?)
  }

  /** The server would still answer `get` with this client's token. */
  predicate Stores(s: State, c: nat) {
    Live(s.key, s.now).Some? && s.key.value.token == c
  }

  /** The next instant at which a timer of the client fires. */
  function Timer(client: Client): Option<int> {
    match client.phase
    case Polling(until) => Some(until)
    case Acquiring(_, t) => Some(t)
    case Holding(Sleeping(until)) => Some(until)
    case Holding(Refreshing(_, t)) => Some(t)
    case Holding(Stopped) => None
    case Draining(_, t) => Some(t)
    case Releasing(_, t) => Some(t)
    case Finished => None
  }

  /** The command whose promise the client awaits. */
  function Awaited(client: Client): Option<nat> {
    match client.phase
    case Acquiring(k, _) => Some(k)
    case Holding(Refreshing(k, _)) => Some(k)
    case Draining(k, _) => Some(k)
    case Releasing(k, _) => Some(k)
    case _ => None
  }

  // ---------------------------------------------------------------- steps

  datatype Step =
    | Tick(to: int)
    | Start(client: nat, config: Config)
    | Poll(client: nat)                              // one turn of the acquire loop
    | Execute(command: nat)                          // the server runs a command
    | Reply(client: nat)                             // the awaited reply arrives in time
    | Fail(client: nat)                              // the awaited command rejects
    | TimeOut(client: nat)                           // commandWithin gives up
    | WakeRenewal(client: nat)                       // the refresh delay ends
    | FinishAction(client: nat)                      // the protected action settles
    | LateReply(client: nat)                         // a timed-out SET answers after all

  predicate Enabled(s: State, step: Step) {
    match step
    case Tick(to) =>
      && s.now < to
      && forall c :: c in s.clients && Timer(s.clients[c]).Some? ==> to <= Timer(s.clients[c]).value
    case Start(c, config) => c !in s.clients && config.Accepted()
    case Poll(c) => c in s.clients && s.clients[c].phase == Polling(s.now)
    case Execute(k) => k in s.commands && s.commands[k].client in s.clients && s.commands[k].reply.None?
    case Reply(c) =>
      && c in s.clients && Awaited(s.clients[c]).Some?
      && var k := Awaited(s.clients[c]).value; k in s.commands && s.commands[k].reply.Some?
    case Fail(c) => c in s.clients && Awaited(s.clients[c]).Some?
    case TimeOut(c) => c in s.clients && Awaited(s.clients[c]).Some? && Timer(s.clients[c]) == Some(s.now)
    case WakeRenewal(c) => c in s.clients && s.clients[c].phase == Holding(Sleeping(s.now))
    case FinishAction(c) => c in s.clients && s.clients[c].phase.Holding?
    case LateReply(c) =>
      && c in s.clients && s.clients[c].late.Some?
      && s.clients[c].late.value in s.commands && s.commands[s.clients[c].late.value].reply.Some?
  }

  function WithClient(s: State, c: nat, client: Client): State {
    s.(clients := s.clients[c := client])
  }

  /** Client `c` sends a command and moves to the state `client`, which awaits it. */
  function Send(s: State, c: nat, kind: Kind, client: Client): State {
    s.(clients := s.clients[c := client],
       commands := s.commands[s.nextCommand := Command(c, kind, s.now, None)],
       nextCommand := s.nextCommand + 1)
  }

  function SendRelease(s: State, c: nat, client: Client): State {
    Send(s, c, Release, client.(phase := Releasing(s.nextCommand, s.now + client.config.cleanupTimeoutMs)))
  }

  function Forget(s: State, k: nat): State {
    s.(commands := s.commands - {k})
  }

  function AfterPoll(s: State, c: nat): State
    requires c in s.clients
  {
    var client := s.clients[c];
    var remaining := client.deadline - s.now;
    if remaining <= 0 then WithClient(s, c, client.(phase := Finished))
    else
      Send(s, c, SetNx, client.(
        phase := Acquiring(s.nextCommand, s.now + Min(remaining, client.config.commandTimeoutMs))))
  }

  function AfterExecute(s: State, k: nat): State
    requires k in s.commands && s.commands[k].client in s.clients
  {
    var command := s.commands[k];
    var client := s.clients[command.client];
    var (key, ok) := Serve(command.kind, command.client, client.config.leaseMs, s.key, s.now);
    var renewed := ok && command.kind != Release;
    s.(key := key,
       commands := s.commands[k := command.(reply := Some(ok))],
       clients := s.clients[command.client :=
         if renewed then client.(expiry := s.now + client.config.leaseMs) else client])
  }

  function AfterReply(s: State, c: nat, sentAt: int, ok: bool): State
    requires c in s.clients
  {
    var client := s.clients[c];
    var slept := s.now + client.config.refreshIntervalMs;
    match client.phase
    case Acquiring(_, _) =>
      if ok then WithClient(s, c, client.(phase := Holding(Sleeping(slept)), confirmedAt := sentAt))
      else
        var delay := Min(client.config.pollIntervalMs, client.deadline - s.now);
        WithClient(s, c, client.(phase := if delay <= 0 then Finished else Polling(s.now + delay)))
    case Holding(_) =>
      if ok then WithClient(s, c, client.(phase := Holding(Sleeping(slept)), confirmedAt := sentAt))
      else WithClient(s, c, client.(phase := Holding(Stopped), lost := true))
    case Draining(_, _) =>
      SendRelease(s, c, client.(lost := client.lost || !ok))
    case _ =>
      WithClient(s, c, client.(phase := Finished, lost := client.lost || !ok))
  }

  /** The awaited command rejects (`late` is None) or times out (`late` names it). */
  function AfterFailure(s: State, c: nat, late: Option<nat>): State
    requires c in s.clients
  {
    var client := s.clients[c];
    match client.phase
    case Acquiring(_, _) => WithClient(s, c, client.(phase := Finished, late := late))
    case Holding(_) => WithClient(s, c, client.(phase := Holding(Stopped), lost := true))
    case Draining(_, _) => SendRelease(s, c, client.(lost := true))
    case _ => WithClient(s, c, client.(phase := Finished))
  }

  function Next(s: State, step: Step): State
    requires Enabled(s, step)
  {
    match step
    case Tick(to) => s.(now := to)
    case Start(c, config) =>
      WithClient(s, c, Client(config, s.now + config.waitTimeoutMs, Polling(s.now), false, None, s.now, s.now))
    case Poll(c) => AfterPoll(s, c)
    case Execute(k) => AfterExecute(s, k)
    case Reply(c) =>
      var k := Awaited(s.clients[c]).value;
      AfterReply(Forget(s, k), c, s.commands[k].sentAt, s.commands[k].reply.value)
    case Fail(c) => AfterFailure(s, c, None)
    case TimeOut(c) => AfterFailure(s, c, Awaited(s.clients[c]))
    case WakeRenewal(c) =>
      var client := s.clients[c];
      Send(s, c, Refresh, client.(
        phase := Holding(Refreshing(s.nextCommand, s.now + client.config.commandTimeoutMs))))
    case FinishAction(c) =>
      var client := s.clients[c];
      (match client.phase.renewal
       case Refreshing(k, t) => WithClient(s, c, client.(phase := Draining(k, t)))
       case _ => SendRelease(s, c, client))
    case LateReply(c) =>
      var client := s.clients[c];
      var k := client.late.value;
      var s' := Forget(s, k);
      if s.commands[k].reply.value then
        Send(s', c, Release, client.(late := None))
      else
        WithClient(s', c, client.(late := None))
  }

  /** The steps can be taken one after the other, each enabled when its turn comes. */
  predicate Feasible(s: State, steps: seq<Step>)
    decreases |steps|
  {
    steps == [] || (Enabled(s, steps[0]) && Feasible(Next(s, steps[0]), steps[1..]))
  }

  function Run(s: State, steps: seq<Step>): State
    requires Feasible(s, steps)
    decreases |steps|
  {
    if steps == [] then s else Run(Next(s, steps[0]), steps[1..])
  }

  ghost predicate Reachable(s: State) {
    exists steps :: Feasible(INITIAL, steps) && Run(INITIAL, steps) == s
  }

  // ---------------------------------------------------------------- the invariant

  predicate NoCommands(s: State, c: nat) {
    forall k :: k in s.commands ==> s.commands[k].client != c
  }

  predicate OnlyCommand(s: State, c: nat, k: nat, kind: Kind) {
    && k in s.commands && s.commands[k].client == c && s.commands[k].kind == kind
    && forall j :: j in s.commands && s.commands[j].client == c ==> j == k
  }

  /** The token got a full lease after `since`, and the key is held for all of it. */
  predicate OwnedSince(s: State, c: nat, since: int)
    requires c in s.clients
  {
    var client := s.clients[c];
    && since + client.config.leaseMs <= client.expiry
    && (s.now <= client.expiry ==> s.key == Some(Stored(c, client.expiry)))
  }

  /** A refresh (or the last one before release) is on the wire and has not failed. */
  predicate RefreshInvariant(s: State, c: nat, k: nat, timesOutAt: int)
    requires c in s.clients
  {
    var client := s.clients[c];
    && OnlyCommand(s, c, k, Refresh)
    && client.confirmedAt <= s.commands[k].sentAt
    && s.commands[k].sentAt <= client.confirmedAt + client.config.commandTimeoutMs + client.config.refreshIntervalMs
    && s.now <= timesOutAt <= s.commands[k].sentAt + client.config.commandTimeoutMs
    && OwnedSince(s, c, client.confirmedAt)
    && (s.commands[k].reply == Some(true) ==> OwnedSince(s, c, s.commands[k].sentAt))
  }

  predicate ClientInvariant(s: State, c: nat)
    requires c in s.clients
  {
    var client := s.clients[c];
    && client.config.Accepted()
    && (client.late.Some? ==> client.phase.Finished?)
    && match client.phase
       case Polling(_) => NoCommands(s, c)
       case Acquiring(k, t) =>
         && OnlyCommand(s, c, k, SetNx)
         && s.now <= t <= s.commands[k].sentAt + client.config.commandTimeoutMs
         && (s.commands[k].reply == Some(true) ==> OwnedSince(s, c, s.commands[k].sentAt))
       case Holding(Sleeping(until)) =>
         && NoCommands(s, c)
         && client.confirmedAt <= s.now <= until <= client.confirmedAt + client.config.commandTimeoutMs
             + client.config.refreshIntervalMs
         && OwnedSince(s, c, client.confirmedAt)
       case Holding(Refreshing(k, t)) => RefreshInvariant(s, c, k, t)
       case Holding(Stopped) => client.lost
       case Draining(k, t) => RefreshInvariant(s, c, k, t)
       case Releasing(k, _) => k in s.commands && s.commands[k].client == c
       case Finished =>
         client.late.Some? ==> client.late.value in s.commands && s.commands[client.late.value].client == c
  }

  predicate Invariant(s: State) {
    && (forall k :: k in s.commands ==>
          k < s.nextCommand && s.commands[k].client in s.clients && s.commands[k].sentAt <= s.now)
    && (s.key.Some? ==> s.key.value.token in s.clients && s.key.value.expiresAt == s.clients[s.key.value.token].expiry)
    && (forall c :: c in s.clients ==> ClientInvariant(s, c))
  }

  // ---------------------------------------------------------------- preservation

  /** A client's invariant only looks at its own record and commands, the clock, and
      whether the key still carries its token. */
  lemma OthersUnaffected(s: State, s': State, c: nat)
    requires c in s.clients && c in s'.clients && s'.clients[c] == s.clients[c]
    requires ClientInvariant(s, c)
    requires s'.now == s.now
    requires s.now <= s.clients[c].expiry && s.key == Some(Stored(c, s.clients[c].expiry)) ==> s'.key == s.key
    requires forall k :: k in s.commands && s.commands[k].client == c ==>
        k in s'.commands && s'.commands[k] == s.commands[k]
    requires forall k :: k in s'.commands && s'.commands[k].client == c ==> k in s.commands && s.commands[k].client == c
    ensures ClientInvariant(s', c)
  {
  }

  lemma SendKeepsInvariant(s: State, c: nat, kind: Kind, client: Client)
    requires Invariant(s) && c in s.clients && client.expiry == s.clients[c].expiry
    requires ClientInvariant(Send(s, c, kind, client), c)
    ensures Invariant(Send(s, c, kind, client))
  {
    var s' := Send(s, c, kind, client);
    forall d | d in s'.clients && d != c ensures ClientInvariant(s', d) {
      OthersUnaffected(s, s', d);
    }
  }

  lemma LocalChangeKeepsInvariant(s: State, c: nat, client: Client)
    requires Invariant(s) && (c in s.clients ==> client.expiry == s.clients[c].expiry)
    requires ClientInvariant(WithClient(s, c, client), c)
    ensures Invariant(WithClient(s, c, client))
  {
    var s' := WithClient(s, c, client);
    forall d | d in s'.clients && d != c ensures ClientInvariant(s', d) {
      OthersUnaffected(s, s', d);
    }
  }

  lemma TickKeepsClient(s: State, to: int, c: nat)
    requires c in s.clients && ClientInvariant(s, c) && s.now < to
    requires Timer(s.clients[c]).Some? ==> to <= Timer(s.clients[c]).value
    ensures ClientInvariant(s.(now := to), c)
  {
  }

  lemma TickKeepsInvariant(s: State, to: int)
    requires Invariant(s) && Enabled(s, Tick(to))
    ensures Invariant(Next(s, Tick(to)))
  {
    var s' := Next(s, Tick(to));
    forall c | c in s'.clients ensures ClientInvariant(s', c) {
      TickKeepsClient(s, to, c);
    }
  }

  lemma ExecuteRefresh(s: State, c: nat, k: nat, timesOutAt: int)
    requires Enabled(s, Execute(k)) && s.commands[k].client == c
    requires RefreshInvariant(s, c, k, timesOutAt) && s.commands[k].sentAt <= s.now
    ensures RefreshInvariant(AfterExecute(s, k), c, k, timesOutAt)
  {
    var s' := AfterExecute(s, k);
    assert forall j :: j in s'.commands <==> j in s.commands;
  }

  lemma ExecuteSet(s: State, c: nat, k: nat)
    requires Enabled(s, Execute(k)) && s.commands[k].client == c
    requires OnlyCommand(s, c, k, SetNx) && s.commands[k].sentAt <= s.now
    ensures OnlyCommand(AfterExecute(s, k), c, k, SetNx)
    ensures var s' := AfterExecute(s, k);
            s'.commands[k].reply == Some(true) ==> OwnedSince(s', c, s.commands[k].sentAt)
  {
    var s' := AfterExecute(s, k);
    assert forall j :: j in s'.commands <==> j in s.commands;
  }

  /** A released or finished client has nothing left to own. */
  lemma ExecuteSpent(s: State, c: nat, k: nat)
    requires Enabled(s, Execute(k)) && s.commands[k].client == c
    requires ClientInvariant(s, c) && (s.clients[c].phase.Releasing? || s.clients[c].phase.Finished?)
    ensures ClientInvariant(AfterExecute(s, k), c)
  {
  }

  lemma HoldingHasNoExecutable(s: State, c: nat, k: nat)
    requires Invariant(s) && Enabled(s, Execute(k)) && s.commands[k].client == c
    ensures !s.clients[c].phase.Polling?
    ensures !(s.clients[c].phase.Holding? && s.clients[c].phase.renewal.Sleeping?)
  {
    assert ClientInvariant(s, c);
    assert !NoCommands(s, c);
  }

  /** The server answers a command of a client: that client's invariant survives. */
  lemma ExecuteKeepsOwner(s: State, k: nat)
    requires Invariant(s) && Enabled(s, Execute(k))
    ensures ClientInvariant(AfterExecute(s, k), s.commands[k].client)
  {
    var c := s.commands[k].client;
    assert ClientInvariant(s, c);
    HoldingHasNoExecutable(s, c, k);
    var s' := AfterExecute(s, k);
    assert s'.clients[c].phase == s.clients[c].phase && s'.clients[c].late == s.clients[c].late
        && s'.clients[c].config == s.clients[c].config && s'.now == s.now;
    match s.clients[c].phase
    case Acquiring(j, _) =>
      assert j == k;
      ExecuteSet(s, c, k);
    case Holding(Refreshing(j, t)) =>
      assert j == k;
      ExecuteRefresh(s, c, k, t);
    case Draining(j, t) =>
      assert j == k;
      ExecuteRefresh(s, c, k, t);
    case Holding(Stopped) =>
    case _ => ExecuteSpent(s, c, k);
  }

  lemma ExecuteKeepsInvariant(s: State, k: nat)
    requires Invariant(s) && Enabled(s, Execute(k))
    ensures Invariant(Next(s, Execute(k)))
  {
    var s' := AfterExecute(s, k);
    ExecuteKeepsOwner(s, k);
    forall c | c in s'.clients && c != s.commands[k].client ensures ClientInvariant(s', c) {
      OthersUnaffected(s, s', c);
    }
  }

  lemma AfterForget(s: State, s': State, c: nat, k: nat)
    requires Invariant(s) && c in s.clients && k in s.commands && s.commands[k].client == c
    requires s'.now == s.now && s'.key == s.key
    requires c in s'.clients && s'.clients[c].expiry == s.clients[c].expiry
        && s'.clients == s.clients[c := s'.clients[c]]
    requires s'.nextCommand >= s.nextCommand
    requires forall j :: j in s.commands && j != k ==> j in s'.commands && s'.commands[j] == s.commands[j]
    requires forall j :: j in s'.commands && s'.commands[j].client != c ==> j in s.commands
    requires forall j :: j in s'.commands && j !in s.commands ==>
                           j < s'.nextCommand && s'.commands[j].client == c && s'.commands[j].sentAt == s.now
    requires k in s'.commands ==> s'.commands[k] == s.commands[k]
    requires ClientInvariant(s', c)
    ensures Invariant(s')
  {
    forall d | d in s'.clients && d != c ensures ClientInvariant(s', d) {
      OthersUnaffected(s, s', d);
    }
  }

  lemma AcquireReply(s: State, c: nat)
    requires Invariant(s) && Enabled(s, Reply(c)) && s.clients[c].phase.Acquiring?
    ensures ClientInvariant(Next(s, Reply(c)), c)
  {
    assert ClientInvariant(s, c);
    assert NoCommands(Next(s, Reply(c)), c);
  }

  lemma RefreshReply(s: State, c: nat)
    requires Invariant(s) && Enabled(s, Reply(c)) && s.clients[c].phase.Holding?
    ensures ClientInvariant(Next(s, Reply(c)), c)
  {
    assert ClientInvariant(s, c);
    assert NoCommands(Next(s, Reply(c)), c);
  }

  /** A reply lets the client sleep, poll again or stop; its own invariant follows. */
  lemma ReplyKeepsOwner(s: State, c: nat)
    requires Invariant(s) && Enabled(s, Reply(c))
    ensures ClientInvariant(Next(s, Reply(c)), c)
  {
    assert ClientInvariant(s, c);
    match s.clients[c].phase
    case Acquiring(_, _) => AcquireReply(s, c);
    case Holding(_) => RefreshReply(s, c);
    case _ =>
  }

  lemma ReplyKeepsInvariant(s: State, c: nat)
    requires Invariant(s) && Enabled(s, Reply(c))
    ensures Invariant(Next(s, Reply(c)))
  {
    ReplyKeepsOwner(s, c);
    assert ClientInvariant(s, c);
    AfterForget(s, Next(s, Reply(c)), c, Awaited(s.clients[c]).value);
  }

  lemma LateReplyKeepsInvariant(s: State, c: nat)
    requires Invariant(s) && Enabled(s, LateReply(c))
    ensures Invariant(Next(s, LateReply(c)))
  {
    assert ClientInvariant(s, c);
    AfterForget(s, Next(s, LateReply(c)), c, s.clients[c].late.value);
  }

  lemma PollKeepsInvariant(s: State, c: nat)
    requires Invariant(s) && Enabled(s, Poll(c))
    ensures Invariant(Next(s, Poll(c)))
  {
    assert ClientInvariant(s, c);
    var client := Next(s, Poll(c)).clients[c];
    if s.clients[c].deadline - s.now <= 0 {
      LocalChangeKeepsInvariant(s, c, client);
    } else {
      SendKeepsInvariant(s, c, SetNx, client);
    }
  }

  lemma WakeKeepsInvariant(s: State, c: nat)
    requires Invariant(s) && Enabled(s, WakeRenewal(c))
    ensures Invariant(Next(s, WakeRenewal(c)))
  {
    assert ClientInvariant(s, c);
    SendKeepsInvariant(s, c, Refresh, Next(s, WakeRenewal(c)).clients[c]);
  }

  lemma FinishKeepsInvariant(s: State, c: nat)
    requires Invariant(s) && Enabled(s, FinishAction(c))
    ensures Invariant(Next(s, FinishAction(c)))
  {
    assert ClientInvariant(s, c);
    var client := Next(s, FinishAction(c)).clients[c];
    if s.clients[c].phase.renewal.Refreshing? {
      LocalChangeKeepsInvariant(s, c, client);
    } else {
      SendKeepsInvariant(s, c, Release, client);
    }
  }

  lemma StartKeepsInvariant(s: State, c: nat, config: Config)
    requires Invariant(s) && Enabled(s, Start(c, config))
    ensures Invariant(Next(s, Start(c, config)))
  {
    LocalChangeKeepsInvariant(s, c, Next(s, Start(c, config)).clients[c]);
  }

  lemma StepKeepsInvariant(s: State, step: Step)
    requires Invariant(s) && Enabled(s, step)
    ensures Invariant(Next(s, step))
  {
    match step
    case Tick(to) => TickKeepsInvariant(s, to);
    case Start(c, config) => StartKeepsInvariant(s, c, config);
    case Poll(c) => PollKeepsInvariant(s, c);
    case Execute(k) => ExecuteKeepsInvariant(s, k);
    case Reply(c) => ReplyKeepsInvariant(s, c);
    case Fail(c) => FailureKeepsInvariant(s, c, None);
    case TimeOut(c) => FailureKeepsInvariant(s, c, Awaited(s.clients[c]));
    case WakeRenewal(c) => WakeKeepsInvariant(s, c);
    case FinishAction(c) => FinishKeepsInvariant(s, c);
    case LateReply(c) => LateReplyKeepsInvariant(s, c);
  }

  lemma FailureKeepsInvariant(s: State, c: nat, late: Option<nat>)
    requires Invariant(s) && c in s.clients && Awaited(s.clients[c]).Some?
    requires late == None || late == Awaited(s.clients[c])
    ensures Invariant(AfterFailure(s, c, late))
  {
    assert ClientInvariant(s, c);
    var client := AfterFailure(s, c, late).clients[c];
    if s.clients[c].phase.Draining? {
      SendKeepsInvariant(s, c, Release, client);
    } else {
      LocalChangeKeepsInvariant(s, c, client);
    }
  }

  lemma {:induction false} RunKeepsInvariant(s: State, steps: seq<Step>)
    requires Invariant(s) && Feasible(s, steps)
    ensures Invariant(Run(s, steps))
    decreases |steps|
  {
    if steps != [] {
      StepKeepsInvariant(s, steps[0]);
      RunKeepsInvariant(Next(s, steps[0]), steps[1..]);
    }
  }

  // ---------------------------------------------------------------- results

  /** With the margin, a client that passes `assertOwned` is the one Redis stores. */
  lemma BelieverIsStored(s: State, c: nat)
    requires Reachable(s) && Believes(s, c)
    requires s.clients[c].config.HasMargin()
    ensures Stores(s, c)
  {
    BelieverOutlivesKeyBriefly(s, c);
  }

  /** Without it, the client can outlive its key, but by less than one command timeout;
      until then the key carries its token. The last clause bounds every belief by the
      instant its last confirmed command was sent. */
  lemma BelieverOutlivesKeyBriefly(s: State, c: nat)
    requires Reachable(s) && Believes(s, c)
    ensures var client := s.clients[c];
            && s.now < client.expiry + client.config.commandTimeoutMs
            && (s.now <= client.expiry ==> Stores(s, c) && s.key.value.expiresAt == client.expiry)
            && s.now <= client.confirmedAt + client.config.refreshIntervalMs + 2 * client.config.commandTimeoutMs
            && client.confirmedAt + client.config.leaseMs <= client.expiry
  {
    var steps :| Feasible(INITIAL, steps) && Run(INITIAL, steps) == s;
    RunKeepsInvariant(INITIAL, steps);
    assert ClientInvariant(s, c);
  }

  /** Mutual exclusion for any number of clients and any interleaving. Only one of the two
      needs the margin for the other one to be the same client or past its own expiry. */
  lemma MutualExclusion(s: State, c: nat, d: nat)
    requires Reachable(s) && Believes(s, c) && Believes(s, d)
    requires s.clients[c].config.HasMargin()
    requires s.clients[d].config.HasMargin() || s.now <= s.clients[d].expiry
    ensures c == d
  {
    BelieverIsStored(s, c);
    BelieverOutlivesKeyBriefly(s, d);
  }

  // ---------------------------------------------------------------- the margin is needed

  lemma {:induction false} AppendStep(s: State, steps: seq<Step>, step: Step)
    requires Feasible(s, steps) && Enabled(Run(s, steps), step)
    ensures Feasible(s, steps + [step]) && Run(s, steps + [step]) == Next(Run(s, steps), step)
    decreases |steps|
  {
    if steps == [] {
      assert [step][1..] == [];
    } else {
      AppendStep(Next(s, steps[0]), steps[1..], step);
      assert (steps + [step])[1..] == steps[1..] + [step];
    }
  }

  lemma ReachNext(s: State, step: Step) returns (s': State)
    requires Reachable(s) && Enabled(s, step)
    ensures Reachable(s') && s' == Next(s, step)
  {
    var steps :| Feasible(INITIAL, steps) && Run(INITIAL, steps) == s;
    AppendStep(INITIAL, steps, step);
    s' := Next(s, step);
  }

  /** A newcomer polls an absent or expired key and gets the lease at once. */
  lemma AcquireAtOnce(s: State, c: nat, config: Config) returns (s': State)
    requires Reachable(s) && c !in s.clients && config.Accepted() && Live(s.key, s.now).None?
    requires s.nextCommand !in s.commands
    ensures Reachable(s') && s'.now == s.now && s'.nextCommand == s.nextCommand + 1
    ensures s'.key == Some(Stored(c, s.now + config.leaseMs)) && s'.commands == s.commands
    ensures c in s'.clients && s'.clients == s.clients[c := s'.clients[c]]
    ensures var client := s'.clients[c];
            && client.config == config && !client.lost
            && client.phase == Holding(Sleeping(s.now + config.refreshIntervalMs))
  {
    hide Reachable;
    var s1 := ReachNext(s, Start(c, config));
    var s2 := ReachNext(s1, Poll(c));
    assert s2.commands[s.nextCommand] == Command(c, SetNx, s.now, None);
    var s3 := ReachNext(s2, Execute(s.nextCommand));
    assert s3.commands[s.nextCommand] == Command(c, SetNx, s.now, Some(true));
    s' := ReachNext(s3, Reply(c));
    assert s'.commands == s.commands;
    assert s'.clients == s.clients[c := s'.clients[c]];
  }

  /** A lone holder sleeps, then has its refresh answered after exactly `delay` ms. */
  lemma RefreshOnce(s: State, c: nat, delay: int) returns (s': State)
    requires Reachable(s) && s.clients.Keys == {c} && s.commands == map[]
    requires s.clients[c].config.Accepted() && !s.clients[c].lost
    requires s.clients[c].phase == Holding(Sleeping(s.now + s.clients[c].config.refreshIntervalMs))
    requires s.key == Some(Stored(c, s.now + s.clients[c].config.leaseMs))
    requires 0 < delay <= s.clients[c].config.commandTimeoutMs
    ensures var config := s.clients[c].config;
            && Reachable(s') && s'.clients.Keys == {c} && s'.commands == map[]
            && s'.now == s.now + config.refreshIntervalMs + delay
            && s'.key == Some(Stored(c, s.now + config.refreshIntervalMs + config.leaseMs))
            && s'.clients[c].config == config && !s'.clients[c].lost
            && s'.clients[c].phase == Holding(Sleeping(s'.now + config.refreshIntervalMs))
  {
    hide Reachable;
    var config := s.clients[c].config;
    var s1 := ReachNext(s, Tick(s.now + config.refreshIntervalMs));
    var s2 := ReachNext(s1, WakeRenewal(c));
    var s3 := ReachNext(s2, Execute(s.nextCommand));
    var s4 := ReachNext(s3, Tick(s3.now + delay));
    s' := ReachNext(s4, Reply(c));
    assert s'.commands == map[];
  }

  /** Every accepted configuration without the margin admits two believers: the first
      refresh is answered as late as allowed and the second one is slow to execute. */
  lemma OverlapRun(config: Config) returns (s: State)
    requires config.Accepted() && !config.HasMargin()
    ensures Reachable(s) && Believes(s, 0) && Believes(s, 1) && !Stores(s, 0)
    ensures s.clients[0].config == config && s.clients[1].config == config
  {
    assert Feasible(INITIAL, []) && Run(INITIAL, []) == INITIAL;
    var s1 := AcquireAtOnce(INITIAL, 0, config);
    assert s1.clients.Keys == {0};
    var s2 := RefreshOnce(s1, 0, config.commandTimeoutMs);
    var s3 := ReachNext(s2, Tick(s2.now + config.refreshIntervalMs));
    var s4 := ReachNext(s3, WakeRenewal(0));
    var s5 := ReachNext(s4, Tick(s2.key.value.expiresAt + 1));
    assert s5.nextCommand !in s5.commands;
    s := AcquireAtOnce(s5, 1, config);
  }

  ghost predicate AlwaysStored(config: Config) {
    forall s, c :: Reachable(s) && Believes(s, c) && s.clients[c].config == config ==> Stores(s, c)
  }

  /** Ownership follows belief for an accepted configuration exactly when it has the margin. */
  lemma MarginIsExact(config: Config)
    requires config.Accepted()
    ensures AlwaysStored(config) <==> config.HasMargin()
  {
    if config.HasMargin() {
      forall s, c | Reachable(s) && Believes(s, c) && s.clients[c].config == config ensures Stores(s, c) {
        BelieverIsStored(s, c);
      }
    } else {
      var s := OverlapRun(config);
    }
  }
}
