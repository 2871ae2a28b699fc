/** The cached bridge of crates/app-server/src/lib.rs as a state machine: callers race to fill
    one slot with reference-counted handles, each owning a child process that is killed when
    the last handle goes, while config updates and a shutdown empty the slot under them. */
module BridgeSlot {
  import opened Options

  /** Where a caller of handle_stdio_thread_message stands. */
  datatype Phase =
    | Idle
    | Starting                  // saw an empty slot, is spawning
    | Started(bridge: nat)      // owns a ready bridge nobody else knows
    | Holding(bridge: nat)      // acquired a handle
    | Streaming(bridge: nat)    // holds the inner lock of that bridge

  /** A child process: `owned` while some bridge object would kill it on drop. */
  datatype Child = Child(alive: bool, owned: bool, kills: nat)

  datatype Server = Server(
    slot: Option<nat>,
    callers: map<nat, Phase>,
    children: map<nat, Child>,
    /** The bridge a shutdown has taken and is waiting to lock; the slot stays locked meanwhile. */
    closing: Option<nat>)

  datatype Step =
    | Read(caller: nat)                     // first look at the slot
    | StartFailed(caller: nat)              // nothing was spawned
    | StartLeaked(caller: nat, child: nat)  // spawned, but the HTTP client could not be built
    | StartUnready(caller: nat, child: nat) // spawned, never became ready: the bridge is dropped
    | StartDone(caller: nat, child: nat)
    | Insert(caller: nat)                   // second look at the slot
    | Lock(caller: nat)
    | Finish(caller: nat)                   // the turn is over: lock and handle are released
    | Invalidate
    | ShutdownTake
    | ShutdownKill

  predicate Uses(phase: Phase, bridge: nat) {
    phase == Started(bridge) || phase == Holding(bridge) || phase == Streaming(bridge)
  }

  predicate CallerHolds(server: Server, bridge: nat) {
    exists c :: c in server.callers && Uses(server.callers[c], bridge)
  }

  predicate Held(server: Server, bridge: nat) {
    server.slot == Some(bridge) || server.closing == Some(bridge) || CallerHolds(server, bridge)
  }

  predicate Streams(server: Server, bridge: nat) {
    exists c :: c in server.callers && server.callers[c] == Streaming(bridge)
  }

  /** shutdown_child: takes the child out of the bridge, so a second call finds none. */
  function Kill(server: Server, bridge: nat): Server {
    if bridge in server.children && server.children[bridge].owned then
      server.(children := server.children[bridge := Child(false, false, server.children[bridge].kills + 1)])
    else server
  }

  /** Drop: runs when the last handle is gone. */
  function Release(server: Server, bridge: nat): Server {
    if Held(server, bridge) then server else Kill(server, bridge)
  }

  function Move(server: Server, caller: nat, phase: Phase): Server {
    server.(callers := server.callers[caller := phase])
  }

  predicate Possible(server: Server, step: Step) {
    match step
    case Read(c) => c in server.callers && server.callers[c].Idle? && server.closing.None?
    case StartFailed(c) => c in server.callers && server.callers[c].Starting?
    case StartLeaked(c, child) => c in server.callers && server.callers[c].Starting? && child !in server.children
    case StartUnready(c, child) => c in server.callers && server.callers[c].Starting? && child !in server.children
    case StartDone(c, child) => c in server.callers && server.callers[c].Starting? && child !in server.children
    case Insert(c) => c in server.callers && server.callers[c].Started? && server.closing.None?
    case Lock(c) => c in server.callers && server.callers[c].Holding? && !Streams(server, server.callers[c].bridge)
    case Finish(c) => c in server.callers && server.callers[c].Streaming?
    case Invalidate => server.closing.None?
    case ShutdownTake => server.closing.None?
    case ShutdownKill => server.closing.Some? && !Streams(server, server.closing.value)
  }

  function Next(server: Server, step: Step): Server
    requires Possible(server, step)
  {
    match step
    case Read(c) =>
      if server.slot.Some? then Move(server, c, Holding(server.slot.value)) else Move(server, c, Starting)
    case StartFailed(c) => Move(server, c, Idle)
    case StartLeaked(c, child) =>
      Move(server, c, Idle).(children := server.children[child := Child(true, false, 0)])
    case StartUnready(c, child) =>
      Release(Move(server, c, Idle).(children := server.children[child := Child(true, true, 0)]), child)
    case StartDone(c, child) =>
      Move(server, c, Started(child)).(children := server.children[child := Child(true, true, 0)])
    case Insert(c) =>
      var mine := server.callers[c].bridge;
      var listed := if server.slot.Some? then server.slot.value else mine;
      Release(Move(server, c, Holding(listed)).(slot := Some(listed)), mine)
    case Lock(c) => Move(server, c, Streaming(server.callers[c].bridge))
    case Finish(c) => Release(Move(server, c, Idle), server.callers[c].bridge)
    case Invalidate =>
      if server.slot.Some? then Release(server.(slot := None), server.slot.value) else server
    case ShutdownTake => server.(slot := None, closing := server.slot)
    case ShutdownKill =>
      var taken := server.closing.value;
      Release(Kill(server, taken).(closing := None), taken)
  }

  // ---- Invariant ----

  ghost predicate KnownHandles(server: Server) {
    forall b :: Held(server, b) ==> b in server.children
  }

  /** Nobody is killed twice, and only the dead have been killed. */
  ghost predicate KilledOnce(server: Server) {
    forall b :: b in server.children ==>
      && server.children[b].kills <= 1
      && (server.children[b].alive <==> server.children[b].kills == 0)
      && (server.children[b].owned ==> server.children[b].alive)
  }

  /** A child some bridge object owns is within reach of a handle. */
  ghost predicate OwnedIsHeld(server: Server) {
    forall b :: b in server.children && server.children[b].owned ==> Held(server, b)
  }

  ghost predicate OneTurnEach(server: Server) {
    forall c, d :: c in server.callers && d in server.callers && c != d && server.callers[c].Streaming? ==>
      server.callers[c] != server.callers[d]
  }

  ghost predicate Inv(server: Server) {
    && KnownHandles(server) && KilledOnce(server) && OwnedIsHeld(server) && OneTurnEach(server)
    && (server.closing.Some? ==> server.slot.None?)
  }

  /** A caller's move changes who holds what only for the bridges of its two phases. */
  lemma {:induction false} MoveHeld(server: Server, caller: nat, phase: Phase, bridge: nat)
    requires caller in server.callers
    ensures Held(Move(server, caller, phase), bridge) ==> Held(server, bridge) || Uses(phase, bridge)
    ensures Held(server, bridge) ==> Held(Move(server, caller, phase), bridge) || Uses(server.callers[caller], bridge)
    ensures Uses(phase, bridge) ==> Held(Move(server, caller, phase), bridge)
  {
    var moved := Move(server, caller, phase);
    if CallerHolds(server, bridge) {
      var c :| c in server.callers && Uses(server.callers[c], bridge);
      if c != caller { assert c in moved.callers && moved.callers[c] == server.callers[c]; }
    }
    if Uses(phase, bridge) { assert caller in moved.callers && moved.callers[caller] == phase; }
  }

  lemma {:induction false} KillKeeps(server: Server, bridge: nat)
    requires KilledOnce(server)
    ensures KilledOnce(Kill(server, bridge))
    ensures forall b :: Held(Kill(server, bridge), b) == Held(server, b)
    ensures bridge in server.children ==> !Kill(server, bridge).children[bridge].owned
  {
    assert forall b :: CallerHolds(Kill(server, bridge), b) == CallerHolds(server, b);
  }

  /** Dropping one handle keeps the invariant when only that handle's bridge may have lost its
      last holder. */
  lemma {:induction false} ReleaseKeeps(server: Server, bridge: nat)
    requires KnownHandles(server) && KilledOnce(server) && OneTurnEach(server) && bridge in server.children
    requires server.closing.Some? ==> server.slot.None?
    requires forall b :: b in server.children && b != bridge && server.children[b].owned ==> Held(server, b)
    ensures Inv(Release(server, bridge))
  {
    KillKeeps(server, bridge);
  }

  lemma {:induction false} InvInsert(server: Server, c: nat)
    requires Inv(server) && Possible(server, Insert(c))
    ensures Inv(Next(server, Insert(c)))
  {
    var mine := server.callers[c].bridge;
    var listed := if server.slot.Some? then server.slot.value else mine;
    var moved := Move(server, c, Holding(listed)).(slot := Some(listed));
    forall b ensures Held(moved, b) ==> Held(server, b)
             ensures Held(server, b) ==> Held(moved, b) || b == mine {
      MoveHeld(server, c, Holding(listed), b);
      assert CallerHolds(moved, b) == CallerHolds(Move(server, c, Holding(listed)), b);
      assert Uses(server.callers[c], mine);
    }
    assert Uses(server.callers[c], mine) && Held(server, mine);
    ReleaseKeeps(moved, mine);
  }

  lemma {:induction false} InvFinish(server: Server, c: nat)
    requires Inv(server) && Possible(server, Finish(c))
    ensures Inv(Next(server, Finish(c)))
  {
    var mine := server.callers[c].bridge;
    assert Uses(server.callers[c], mine) && Held(server, mine);
    var moved := Move(server, c, Idle);
    forall b ensures Held(moved, b) ==> Held(server, b)
             ensures Held(server, b) ==> Held(moved, b) || b == mine {
      MoveHeld(server, c, Idle, b);
    }
    ReleaseKeeps(moved, mine);
  }

  lemma {:induction false} InvInvalidate(server: Server)
    requires Inv(server) && Possible(server, Invalidate)
    ensures Inv(Next(server, Invalidate))
  {
    if server.slot.Some? {
      var emptied := server.(slot := None);
      assert Held(server, server.slot.value);
      forall b ensures CallerHolds(emptied, b) == CallerHolds(server, b) { }
      ReleaseKeeps(emptied, server.slot.value);
    }
  }

  lemma {:induction false} InvShutdown(server: Server, step: Step)
    requires Inv(server) && Possible(server, step) && (step.ShutdownTake? || step.ShutdownKill?)
    ensures Inv(Next(server, step))
  {
    if step.ShutdownTake? {
      forall b ensures Held(Next(server, step), b) == Held(server, b) {
        assert CallerHolds(Next(server, step), b) == CallerHolds(server, b);
      }
    } else {
      var taken := server.closing.value;
      assert Held(server, taken);
      KillKeeps(server, taken);
      var closed := Kill(server, taken).(closing := None);
      forall b ensures Held(closed, b) ==> Held(server, b)
               ensures Held(server, b) && b != taken ==> Held(closed, b) {
        assert CallerHolds(closed, b) == CallerHolds(server, b);
      }
      ReleaseKeeps(closed, taken);
    }
  }

  lemma {:induction false} InvStart(server: Server, step: Step)
    requires Inv(server) && Possible(server, step)
    requires step.StartLeaked? || step.StartUnready? || step.StartDone?
    ensures Inv(Next(server, step))
  {
    var c, child := step.caller, step.child;
    var phase := if step.StartDone? then Started(child) else Idle;
    var born := Child(true, !step.StartLeaked?, 0);
    var moved := Move(server, c, phase).(children := server.children[child := born]);
    forall b ensures Held(moved, b) ==> Held(server, b) || (step.StartDone? && b == child)
             ensures Held(server, b) ==> Held(moved, b)
             ensures step.StartDone? && b == child ==> Held(moved, b) {
      MoveHeld(server, c, phase, b);
      assert CallerHolds(moved, b) == CallerHolds(Move(server, c, phase), b);
    }
    if step.StartUnready? { ReleaseKeeps(moved, child); }
  }

  lemma {:induction false} InvCaller(server: Server, step: Step)
    requires Inv(server) && Possible(server, step)
    requires step.Read? || step.StartFailed? || step.Lock?
    ensures Inv(Next(server, step))
  {
    var c, next := step.caller, Next(server, step);
    forall b ensures Held(next, b) == Held(server, b) { MoveHeld(server, c, next.callers[c], b); }
  }

  lemma {:induction false} InvNext(server: Server, step: Step)
    requires Inv(server) && Possible(server, step)
    ensures Inv(Next(server, step))
  {
    match step {
      case Insert(c) => InvInsert(server, c);
      case Finish(c) => InvFinish(server, c);
      case Invalidate => InvInvalidate(server);
      case ShutdownTake => InvShutdown(server, step);
      case ShutdownKill => InvShutdown(server, step);
      case StartLeaked(_, _) => InvStart(server, step);
      case StartUnready(_, _) => InvStart(server, step);
      case StartDone(_, _) => InvStart(server, step);
      case _ => InvCaller(server, step);
    }
  }

  // ---- Runs ----

  predicate Leads(server: Server, step: Step, next: Server) {
    Possible(server, step) && next == Next(server, step)
  }

  predicate Run(servers: seq<Server>, steps: seq<Step>) {
    && |servers| == |steps| + 1
    && forall i :: 0 <= i < |steps| ==> Leads(servers[i], steps[i], servers[i + 1])
  }

  /** Under every interleaving no child is killed twice, every child some bridge owns is within
      reach of a handle, and each bridge serves one turn at a time. */
  lemma {:induction false} RunKeepsInv(servers: seq<Server>, steps: seq<Step>, n: nat)
    requires Run(servers, steps) && Inv(servers[0]) && n <= |steps|
    ensures Inv(servers[n])
    decreases n
  {
    if n > 0 {
      RunKeepsInv(servers, steps, n - 1);
      assert Leads(servers[n - 1], steps[n - 1], servers[n]);
      InvNext(servers[n - 1], steps[n - 1]);
    }
  }

  lemma {:induction false} StreamsHolds(server: Server, bridge: nat)
    ensures Streams(server, bridge) ==> Held(server, bridge)
  {
    if Streams(server, bridge) {
      var c :| c in server.callers && server.callers[c] == Streaming(bridge);
      assert Uses(server.callers[c], bridge);
    }
  }

  /** A child is killed only when no turn streams on it: a shutdown waits for the lock, and the
      last handle is dropped by a caller that has finished. */
  lemma {:induction false} KillsOnlyIdle(server: Server, step: Step, bridge: nat)
    requires Inv(server) && Possible(server, step) && bridge in server.children
    requires Next(server, step).children[bridge].kills > server.children[bridge].kills
    ensures !Streams(Next(server, step), bridge)
    ensures Streams(server, bridge) ==> step.Finish? && server.callers[step.caller] == Streaming(bridge)
    ensures step.ShutdownKill? || !Held(Next(server, step), bridge)
  {
    var next := Next(server, step);
    StreamsHolds(next, bridge);
    if Streams(server, bridge) {
      var c :| c in server.callers && server.callers[c] == Streaming(bridge);
      assert c in next.callers && next.callers[c] == Streaming(bridge) ==> Streams(next, bridge);
    }
  }

  /** A child nothing will ever kill. */
  predicate Orphan(server: Server, child: nat) {
    child in server.children && server.children[child].alive && !server.children[child].owned && !Held(server, child)
  }

  predicate LiveIsHeld(server: Server) {
    forall b :: b in server.children && server.children[b].alive ==> Held(server, b)
  }

  predicate Acquires(server: Server, step: Step, bridge: nat) {
    && Possible(server, step)
    && (step.Read? || step.Insert?) && Next(server, step).callers[step.caller] == Holding(bridge)
  }

  /** Handles are only ever taken on the slot's bridge or on a child spawned that moment. */
  lemma {:induction false} NewHandles(server: Server, step: Step, bridge: nat)
    requires Inv(server) && Possible(server, step) && bridge in server.children && !Held(server, bridge)
    ensures !Held(Next(server, step), bridge)
  {
    var next := Next(server, step);
    assert forall c :: c in server.callers ==> !Uses(server.callers[c], bridge);
    if step.Insert? || step.Lock? {
      var mine := server.callers[step.caller].bridge;
      assert Uses(server.callers[step.caller], mine);
    }
    forall c | c in next.callers ensures !Uses(next.callers[c], bridge) {
    }
  }

  lemma {:induction false} OrphanStays(server: Server, step: Step, child: nat)
    requires Inv(server) && Possible(server, step) && Orphan(server, child)
    ensures Orphan(Next(server, step), child)
  {
    NewHandles(server, step, child);
  }

  /** A bridge gives up its child only by killing it. */
  lemma {:induction false} OwnershipIsKept(server: Server, step: Step, bridge: nat)
    requires KilledOnce(server) && Possible(server, step) && bridge in server.children && server.children[bridge].alive
    ensures var now := Next(server, step).children;
            bridge in now && (now[bridge] == server.children[bridge] || !now[bridge].alive)
  {
  }

  /** Live children that are owned and held: what a run keeps as long as no start leaks. */
  predicate LiveIsOwned(server: Server) {
    forall b :: b in server.children && server.children[b].alive ==> server.children[b].owned
  }

  lemma {:induction false} LiveIsOwnedNext(server: Server, step: Step)
    requires Inv(server) && LiveIsOwned(server) && Possible(server, step)
    ensures LiveIsOwned(Next(server, step)) <==> !step.StartLeaked?
    ensures step.StartLeaked? ==> Orphan(Next(server, step), step.child)
  {
    if step.StartLeaked? {
      var next, before := Next(server, step), Move(server, step.caller, Idle);
      assert !Held(server, step.child) && next.children[step.child] == Child(true, false, 0);
      MoveHeld(server, step.caller, Idle, step.child);
      assert CallerHolds(next, step.child) == CallerHolds(before, step.child);
    } else {
      forall b | b in server.children && server.children[b].alive
        ensures Next(server, step).children[b].alive ==> Next(server, step).children[b].owned
      {
        OwnershipIsKept(server, step, b);
      }
    }
  }

  predicate NoneLeaked(steps: seq<Step>) {
    forall i :: 0 <= i < |steps| ==> !steps[i].StartLeaked?
  }

  lemma {:induction false} LeakedSnoc(steps: seq<Step>, n: nat)
    requires 0 < n <= |steps|
    ensures NoneLeaked(steps[..n]) <==> NoneLeaked(steps[..n - 1]) && !steps[n - 1].StartLeaked?
  {
    assert steps[..n] == steps[..n - 1] + [steps[n - 1]];
  }

  lemma {:induction false} LiveNext(server: Server, step: Step)
    requires Inv(server) && Possible(server, step) && OwnedOrOrphan(server)
    ensures LiveIsHeld(Next(server, step)) <==> LiveIsHeld(server) && !step.StartLeaked?
    ensures OwnedOrOrphan(Next(server, step))
  {
    InvNext(server, step);
    if LiveIsHeld(server) {
      LiveIsOwnedNext(server, step);
    } else {
      var child :| Orphan(server, child);
      OrphanStays(server, step, child);
    }
  }

  ghost predicate OwnedOrOrphan(server: Server) {
    if LiveIsHeld(server) then LiveIsOwned(server) else exists child :: Orphan(server, child)
  }

  /** In every run, every live child belongs to a bridge held by the slot, a shutdown or a caller
      exactly as long as no start has failed between the spawn and the building of its client. */
  lemma {:induction false} LiveIsHeldIff(servers: seq<Server>, steps: seq<Step>, n: nat)
    requires Run(servers, steps) && Inv(servers[0]) && LiveIsOwned(servers[0]) && n <= |steps|
    ensures LiveIsHeld(servers[n]) <==> NoneLeaked(steps[..n])
    ensures OwnedOrOrphan(servers[n])
    decreases n
  {
    RunKeepsInv(servers, steps, n);
    if n > 0 {
      LiveIsHeldIff(servers, steps, n - 1);
      RunKeepsInv(servers, steps, n - 1);
      assert Leads(servers[n - 1], steps[n - 1], servers[n]);
      LiveNext(servers[n - 1], steps[n - 1]);
      LeakedSnoc(steps, n);
    } else {
      assert LiveIsHeld(servers[0]);
    }
  }

  /** What an acquire returns is in the slot from then on, until the slot is emptied. */
  lemma {:induction false} SlotStays(servers: seq<Server>, steps: seq<Step>, m: nat, n: nat, bridge: nat)
    requires Run(servers, steps) && m <= n <= |steps| && servers[m].slot == Some(bridge)
    requires forall i :: m <= i < n ==> !steps[i].Invalidate? && !steps[i].ShutdownTake?
    ensures servers[n].slot == Some(bridge)
    decreases n
  {
    if m < n {
      SlotStays(servers, steps, m, n - 1, bridge);
      assert Leads(servers[n - 1], steps[n - 1], servers[n]);
    }
  }

  /** Two acquires with neither an invalidation nor a shutdown between their slot reads return
      the same bridge, however many children were spawned in the race. */
  lemma {:induction false} SameBridge(servers: seq<Server>, steps: seq<Step>, m: nat, n: nat, one: nat, other: nat)
    requires Run(servers, steps) && m < n < |steps|
    requires Acquires(servers[m], steps[m], one) && Acquires(servers[n], steps[n], other)
    requires forall i :: m < i < n ==> !steps[i].Invalidate? && !steps[i].ShutdownTake?
    ensures one == other
  {
    assert Leads(servers[m], steps[m], servers[m + 1]);
    assert Leads(servers[n], steps[n], servers[n + 1]);
    SlotStays(servers, steps, m + 1, n, one);
  }

  // ---- What the steps do ----

  predicate Dead(server: Server, bridge: nat) {
    bridge in server.children && !server.children[bridge].alive
  }

  /** Nothing but the caller's own phase. */
  predicate OnlyMoved(server: Server, next: Server, caller: nat, phase: Phase) {
    next == server.(callers := server.callers[caller := phase])
  }

  /** The first look at the slot: a cached bridge is taken, with no child spawned; an empty slot
      makes the caller start one. */
  lemma {:induction false} ReadTakesOrStarts(server: Server, c: nat)
    requires Possible(server, Read(c))
    ensures OnlyMoved(server, Next(server, Read(c)), c, if server.slot.Some? then Holding(server.slot.value) else Starting)
  {
  }

  /** A start ends with a ready bridge of its own, or with none: then its child, if there was one,
      is dead, unless its client could not be built. */
  lemma {:induction false} StartEnds(server: Server, step: Step)
    requires Inv(server) && Possible(server, step)
    requires step.StartFailed? || step.StartLeaked? || step.StartUnready? || step.StartDone?
    ensures var next := Next(server, step);
            && next.callers == server.callers[step.caller := if step.StartDone? then Started(step.child) else Idle]
            && next.slot == server.slot && next.closing == server.closing
            && (step.StartFailed? ==> next.children == server.children)
            && (!step.StartFailed? ==> next.children == server.children[step.child := next.children[step.child]])
            && (step.StartUnready? ==> Dead(next, step.child))
            && (step.StartDone? || step.StartLeaked? ==> !Dead(next, step.child))
  {
    if step.StartUnready? {
      assert !Held(server, step.child);
      MoveHeld(server, step.caller, Idle, step.child);
      var moved := Move(server, step.caller, Idle).(children := server.children[step.child := Child(true, true, 0)]);
      assert CallerHolds(moved, step.child) == CallerHolds(Move(server, step.caller, Idle), step.child);
    }
  }

  /** The second look: the bridge cached meanwhile wins, or else the caller's own; the loser's
      child dies at once. */
  lemma {:induction false} InsertPrefersCached(server: Server, c: nat)
    requires Inv(server) && StartedAlone(server) && Possible(server, Insert(c))
    ensures var next, mine := Next(server, Insert(c)), server.callers[c].bridge;
            var listed := if server.slot.Some? then server.slot.value else mine;
            && next.slot == Some(listed) && next.callers == server.callers[c := Holding(listed)] && next.closing == server.closing
            && (listed != mine ==> Dead(next, mine))
            && (listed == mine ==> next.children == server.children)
  {
    var mine := server.callers[c].bridge;
    var listed := if server.slot.Some? then server.slot.value else mine;
    var moved := Move(server, c, Holding(listed)).(slot := Some(listed));
    assert Uses(server.callers[c], mine) && Held(server, mine);
    if listed != mine {
      forall d | d in moved.callers ensures !Uses(moved.callers[d], mine) {
        if d != c { assert !Uses(server.callers[d], mine); }
      }
    }
  }

  /** The lock is what makes a caller stream, and finishing gives up lock and handle. */
  lemma {:induction false} TurnSteps(server: Server, c: nat)
    ensures Possible(server, Lock(c)) ==> OnlyMoved(server, Next(server, Lock(c)), c, Streaming(server.callers[c].bridge))
    ensures Possible(server, Finish(c)) ==>
              var next, mine := Next(server, Finish(c)), server.callers[c].bridge;
              && next.callers == server.callers[c := Idle] && next.slot == server.slot && next.closing == server.closing
              && (Owned(server, mine) && server.children[mine].alive ==> (Dead(next, mine) <==> !Held(Move(server, c, Idle), mine)))
              && (Held(Move(server, c, Idle), mine) ==> next.children == server.children)
  {
  }

  /** An invalidation empties the slot; the bridge that was in it is killed at once unless a caller
      still holds it. */
  lemma {:induction false} InvalidateEmpties(server: Server)
    requires Inv(server) && Possible(server, Invalidate)
    ensures var next := Next(server, Invalidate);
            && next.slot.None? && next.callers == server.callers && next.closing.None?
            && (server.slot.None? ==> next.children == server.children)
            && (server.slot.Some? && CallerHolds(server, server.slot.value) ==> next.children == server.children)
            && (server.slot.Some? && !CallerHolds(server, server.slot.value) && Owned(server, server.slot.value) ==>
                  Dead(next, server.slot.value))
  {
    if server.slot.Some? { SameCallers(server, server.(slot := None), server.slot.value); }
  }

  /** A shutdown takes the bridge out of the slot, and kills its child once it has the lock. */
  lemma {:induction false} ShutdownKills(server: Server)
    requires Inv(server)
    ensures Possible(server, ShutdownTake) ==>
              Next(server, ShutdownTake) == server.(slot := None, closing := server.slot)
    ensures Possible(server, ShutdownKill) ==>
              var next := Next(server, ShutdownKill);
              && next.slot.None? && next.closing.None? && next.callers == server.callers
              && (Owned(server, server.closing.value) ==> Dead(next, server.closing.value))
  {
  }

  // ---- What may happen when ----

  /** The slot is locked from when a shutdown takes the bridge until it has killed the child, and
      each bridge is locked while a turn streams on it; nothing else is ever waited for. */
  lemma {:induction false} StepsEnabled(server: Server)
    ensures Possible(server, Invalidate) <==> server.closing.None?
    ensures Possible(server, ShutdownTake) <==> server.closing.None?
    ensures Possible(server, ShutdownKill) <==> server.closing.Some? && !Streams(server, server.closing.value)
    ensures forall c :: c in server.callers ==>
              match server.callers[c]
              case Idle => Possible(server, Read(c)) <==> server.closing.None?
              case Starting =>
                && Possible(server, StartFailed(c))
                && forall child :: child !in server.children ==>
                     Possible(server, StartLeaked(c, child)) && Possible(server, StartUnready(c, child)) && Possible(server, StartDone(c, child))
              case Started(_) => Possible(server, Insert(c)) <==> server.closing.None?
              case Holding(bridge) => Possible(server, Lock(c)) <==> !Streams(server, bridge)
              case Streaming(_) => Possible(server, Finish(c))
  {
  }

  /** Nobody waits for ever: whoever cannot go on waits for a turn that can finish, or for a
      shutdown that can kill or itself waits for such a turn. */
  lemma {:induction false} NeverStuck(server: Server, c: nat) returns (step: Step)
    requires c in server.callers && !server.callers[c].Idle?
    ensures Possible(server, step) && (step.Finish? || step.ShutdownKill? || TakenBy(step, c))
  {
    match server.callers[c] {
      case Starting => step := StartFailed(c);
      case Started(_) => if server.closing.None? { step := Insert(c); } else { step := WaitsFor(server, server.closing.value, ShutdownKill); }
      case Holding(bridge) => step := WaitsFor(server, bridge, Lock(c));
      case Streaming(_) => step := Finish(c);
    }
  }

  lemma {:induction false} WaitsFor(server: Server, bridge: nat, wanted: Step) returns (step: Step)
    requires !Streams(server, bridge) ==> Possible(server, wanted)
    ensures Possible(server, step) && (step == wanted || step.Finish?)
  {
    if Streams(server, bridge) {
      var d :| d in server.callers && server.callers[d] == Streaming(bridge);
      step := Finish(d);
    } else {
      step := wanted;
    }
  }

  // ---- No way back ----

  predicate Lonely(server: Server, c: nat, bridge: nat) {
    && Owned(server, bridge) && server.slot != Some(bridge) && server.closing != Some(bridge)
    && forall d :: d in server.callers && d != c ==> !Uses(server.callers[d], bridge)
  }

  /** A bridge that has just been started is known to its starter alone, and has its child. */
  ghost predicate StartedAlone(server: Server) {
    forall c :: c in server.callers && server.callers[c].Started? ==> Lonely(server, c, server.callers[c].bridge)
  }

  /** Whoever has just started a bridge after a step had started it before, unless it is the one
      this step started. */
  lemma {:induction false} StartedBefore(server: Server, step: Step, c: nat)
    requires Possible(server, step)
    requires c in Next(server, step).callers && Next(server, step).callers[c].Started?
    ensures (step.StartDone? && step.caller == c) || (c in server.callers && server.callers[c] == Next(server, step).callers[c])
  {
  }

  lemma {:induction false} LonelyStays(server: Server, step: Step, c: nat)
    requires Inv(server) && StartedAlone(server) && Possible(server, step)
    requires c in server.callers && server.callers[c].Started? && Next(server, step).callers[c] == server.callers[c]
    ensures Lonely(Next(server, step), c, server.callers[c].bridge)
  {
    var next, bridge := Next(server, step), server.callers[c].bridge;
    assert Lonely(server, c, bridge);
    LonelyUnused(server, step, c, bridge);
    LonelyOwned(server, step, c, bridge);
  }

  lemma {:induction false} LonelyUnused(server: Server, step: Step, c: nat, bridge: nat)
    requires Inv(server) && Possible(server, step) && Lonely(server, c, bridge)
    requires c in server.callers && server.callers[c] == Started(bridge) && Next(server, step).callers[c] == Started(bridge)
    ensures var next := Next(server, step);
            && next.slot != Some(bridge) && next.closing != Some(bridge)
            && forall d :: d in next.callers && d != c ==> !Uses(next.callers[d], bridge)
  {
    if step.Insert? { assert Uses(server.callers[step.caller], server.callers[step.caller].bridge); }
  }

  lemma {:induction false} LonelyOwned(server: Server, step: Step, c: nat, bridge: nat)
    requires Inv(server) && Possible(server, step) && Lonely(server, c, bridge)
    requires c in server.callers && server.callers[c] == Started(bridge) && Next(server, step).callers[c] == Started(bridge)
    ensures Owned(Next(server, step), bridge)
  {
    var next := Next(server, step);
    assert Uses(next.callers[c], bridge) && CallerHolds(next, bridge) && Held(next, bridge);
    OwnershipIsKept(server, step, bridge);
  }

  lemma {:induction false} LonelyAtFirst(server: Server, c: nat, child: nat)
    requires Inv(server) && Possible(server, StartDone(c, child))
    ensures Lonely(Next(server, StartDone(c, child)), c, child)
  {
    assert !Held(server, child) && !CallerHolds(server, child);
  }

  lemma {:induction false} StartedAloneNext(server: Server, step: Step)
    requires Inv(server) && StartedAlone(server) && Possible(server, step)
    ensures StartedAlone(Next(server, step))
  {
    var next := Next(server, step);
    forall c | c in next.callers && next.callers[c].Started? ensures Lonely(next, c, next.callers[c].bridge) {
      StartedBefore(server, step, c);
      if step.StartDone? && step.caller == c { LonelyAtFirst(server, c, step.child); } else { LonelyStays(server, step, c); }
    }
  }

  lemma {:induction false} RunKeepsAlone(servers: seq<Server>, steps: seq<Step>, n: nat)
    requires Run(servers, steps) && Inv(servers[0]) && StartedAlone(servers[0]) && n <= |steps|
    ensures StartedAlone(servers[n])
    decreases n
  {
    if n > 0 {
      RunKeepsAlone(servers, steps, n - 1);
      RunKeepsInv(servers, steps, n - 1);
      assert Leads(servers[n - 1], steps[n - 1], servers[n]);
      StartedAloneNext(servers[n - 1], steps[n - 1]);
    }
  }

  /** A bridge that is neither in the slot nor about to be put there. */
  predicate Gone(server: Server, bridge: nat) {
    && bridge in server.children && server.slot != Some(bridge)
    && forall c :: c in server.callers ==> server.callers[c] != Started(bridge)
  }

  lemma {:induction false} GoneStays(server: Server, step: Step, bridge: nat)
    requires Inv(server) && Possible(server, step) && Gone(server, bridge)
    ensures Gone(Next(server, step), bridge)
  {
  }

  lemma {:induction false} GoneForGood(servers: seq<Server>, steps: seq<Step>, m: nat, n: nat, bridge: nat)
    requires Run(servers, steps) && Inv(servers[0]) && m <= n <= |steps| && Gone(servers[m], bridge)
    ensures Gone(servers[n], bridge)
    decreases n
  {
    if m < n {
      GoneForGood(servers, steps, m, n - 1, bridge);
      RunKeepsInv(servers, steps, n - 1);
      assert Leads(servers[n - 1], steps[n - 1], servers[n]);
      GoneStays(servers[n - 1], steps[n - 1], bridge);
    }
  }

  /** In every run, nobody who looks at the slot after an invalidation or a shutdown gets the
      bridge that was in it: the next message runs on a child spawned since. */
  lemma {:induction false} NoStaleAcquire(servers: seq<Server>, steps: seq<Step>, m: nat, n: nat, old': nat, acquired: nat)
    requires Run(servers, steps) && Inv(servers[0]) && StartedAlone(servers[0]) && m < n < |steps|
    requires (steps[m].Invalidate? || steps[m].ShutdownTake?) && servers[m].slot == Some(old')
    requires Acquires(servers[n], steps[n], acquired)
    ensures acquired != old'
  {
    RunKeepsInv(servers, steps, m);
    RunKeepsAlone(servers, steps, m);
    assert Leads(servers[m], steps[m], servers[m + 1]);
    assert Held(servers[m], old');
    InvalidateOrTakeLetsGo(servers[m], steps[m], old');
    GoneForGood(servers, steps, m + 1, n, old');
  }

  lemma {:induction false} InvalidateOrTakeLetsGo(server: Server, step: Step, bridge: nat)
    requires Inv(server) && StartedAlone(server) && Possible(server, step) && (step.Invalidate? || step.ShutdownTake?)
    requires server.slot == Some(bridge)
    ensures Gone(Next(server, step), bridge)
  {
    assert Held(server, bridge);
  }

  // ---- Turns on a dead child ----

  /** Every handle leads to a child that is still running. */
  ghost predicate HandlesLive(server: Server) {
    forall b :: Held(server, b) ==> Owned(server, b)
  }

  predicate Owned(server: Server, bridge: nat) {
    bridge in server.children && server.children[bridge].owned
  }

  /** One kind of step leaves a caller with a handle on a dead child, and so can have a turn
      start on it: a shutdown that kills while a caller has acquired but not yet locked. */
  lemma {:induction false} HandlesLiveIff(server: Server, step: Step)
    requires Inv(server) && HandlesLive(server) && Possible(server, step)
    ensures HandlesLive(Next(server, step)) <==> !(step.ShutdownKill? && CallerHolds(server, server.closing.value))
  {
    var next := Next(server, step);
    if step.ShutdownKill? && CallerHolds(server, server.closing.value) {
      var taken := server.closing.value;
      var c :| c in server.callers && Uses(server.callers[c], taken);
      assert c in next.callers && Uses(next.callers[c], taken);
      assert Held(next, taken) && !Owned(next, taken);
    } else {
      forall b | Held(next, b) ensures Owned(next, b) {
        StillOwned(server, step, b);
      }
    }
  }

  lemma {:induction false} StillOwned(server: Server, step: Step, bridge: nat)
    requires Inv(server) && Possible(server, step) && Held(Next(server, step), bridge)
    requires forall b :: Held(server, b) ==> Owned(server, b)
    requires !(step.ShutdownKill? && CallerHolds(server, server.closing.value))
    ensures Owned(Next(server, step), bridge)
  {
    var next := Next(server, step);
    if bridge in server.children {
      if !Held(server, bridge) { NewHandles(server, step, bridge); }
    } else {
      InvNext(server, step);
    }
    if step.ShutdownKill? { SameCallers(server, next, bridge); }
  }

  lemma {:induction false} SameCallers(one: Server, other: Server, bridge: nat)
    requires one.callers == other.callers
    ensures CallerHolds(one, bridge) == CallerHolds(other, bridge)
  {
  }

  /** A shutdown that kills a bridge some caller has acquired. */
  predicate KillsHeld(server: Server, step: Step) {
    step.ShutdownKill? && server.closing.Some? && CallerHolds(server, server.closing.value)
  }

  /** In every run every handle leads to a running child throughout, exactly as long as no
      shutdown kills a bridge that a caller has acquired. */
  lemma {:induction false} RunHandlesLiveIff(servers: seq<Server>, steps: seq<Step>, n: nat)
    requires Run(servers, steps) && Inv(servers[0]) && HandlesLive(servers[0]) && n <= |steps|
    ensures (forall i :: 0 <= i <= n ==> HandlesLive(servers[i])) <==> (forall i :: 0 <= i < n ==> !KillsHeld(servers[i], steps[i]))
    decreases n
  {
    if n > 0 {
      RunHandlesLiveIff(servers, steps, n - 1);
      if forall i :: 0 <= i < n ==> HandlesLive(servers[i]) {
        RunKeepsInv(servers, steps, n - 1);
        assert Leads(servers[n - 1], steps[n - 1], servers[n]);
        HandlesLiveIff(servers[n - 1], steps[n - 1]);
      }
    }
  }

  predicate TakenBy(step: Step, caller: nat) {
    match step
    case Invalidate => false
    case ShutdownTake => false
    case ShutdownKill => false
    case _ => step.caller == caller
  }

  /** One request at a time, as the stdio loop serves them: while a caller is on its way from
      acquiring to finishing, every step is its own. */
  predicate OneAtATime(servers: seq<Server>, steps: seq<Step>)
    requires |servers| == |steps| + 1
  {
    forall i, c :: 0 <= i < |steps| && c in servers[i].callers && !servers[i].callers[c].Idle? ==> TakenBy(steps[i], c)
  }

  /** A server that serves one request at a time never has a handle on a dead child. */
  lemma {:induction false} OneAtATimeIsSafe(servers: seq<Server>, steps: seq<Step>)
    requires Run(servers, steps) && Inv(servers[0]) && HandlesLive(servers[0]) && OneAtATime(servers, steps)
    ensures forall i :: 0 <= i < |servers| ==> HandlesLive(servers[i])
  {
    RunHandlesLiveIff(servers, steps, |steps|);
    forall i | 0 <= i < |steps| ensures !KillsHeld(servers[i], steps[i]) {
      if steps[i].ShutdownKill? {
        assert forall c :: c in servers[i].callers ==> servers[i].callers[c].Idle? || TakenBy(steps[i], c);
      }
    }
  }

  const FRESH := map[7 := Child(true, true, 0)]
  const KILLED := map[7 := Child(false, false, 1)]

  /** The states of a run in which a shutdown comes between an acquire and its lock. */
  function Example(n: nat): Server {
    match n
    case 0 => Server(None, map[0 := Idle], map[], None)
    case 1 => Server(None, map[0 := Starting], map[], None)
    case 2 => Server(None, map[0 := Started(7)], FRESH, None)
    case 3 => Server(Some(7), map[0 := Holding(7)], FRESH, None)
    case 4 => Server(None, map[0 := Holding(7)], FRESH, Some(7))
    case 5 => Server(None, map[0 := Holding(7)], KILLED, None)
    case _ => Server(None, map[0 := Streaming(7)], KILLED, None)
  }

  lemma {:induction false} ExampleAcquires()
    ensures Leads(Example(0), Read(0), Example(1)) && Leads(Example(1), StartDone(0, 7), Example(2))
    ensures Leads(Example(2), Insert(0), Example(3))
  {
    assert Uses(Example(3).callers[0], 7) && CallerHolds(Example(3), 7);
  }

  lemma {:induction false} ExampleShutsDown()
    ensures Leads(Example(3), ShutdownTake, Example(4)) && Leads(Example(4), ShutdownKill, Example(5))
    ensures Leads(Example(5), Lock(0), Example(6))
  {
    assert Uses(Example(5).callers[0], 7) && CallerHolds(Example(5), 7);
  }

  /** With more than one request under way such a run exists: the turn ends up streaming on a child
      that was killed before it began. */
  lemma {:induction false} TurnOnDeadChild() returns (servers: seq<Server>, steps: seq<Step>)
    ensures Run(servers, steps) && Inv(servers[0]) && HandlesLive(servers[0])
    ensures var last := servers[|steps|];
            0 in last.callers && last.callers[0] == Streaming(7) && 7 in last.children && !last.children[7].alive
  {
    ExampleAcquires();
    ExampleShutsDown();
    servers := seq(7, i requires 0 <= i < 7 => Example(i));
    steps := [Read(0), StartDone(0, 7), Insert(0), ShutdownTake, ShutdownKill, Lock(0)];
  }
}
