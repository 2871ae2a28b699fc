/** Where the two halves of the app-server meet: what a client on stdio gets of what the runtime
    has logged for its turn (crates/app-server/src/lib.rs). */
module Sessions {
  import opened Options
  import opened Output
  import opened TurnStream
  import opened RuntimeBridges
  import opened AppServer
  import Runs = TurnRuns

  /** A message whose turn, connection and positions are those of a step of the runtime. */
  ghost predicate Carried(env: Env, s: AppServer.State, call: Call, world: Runs.World, step: Runs.Step) {
    && step.Turned? && Runs.Possible(world, step, env.codec)
    && call.Message? && call.post == Posted(step.turn) && call.connection == Open(step.chunks)
    && var bridge := Acquired(s, call.spawned).bridge;
       && bridge.Some? && ThreadOf(bridge.value, call.thread, call.created) == Some(step.thread)
       && Connected(bridge.value, call.thread, call.created).lastSeq == world.lastSeq
  }

  /** The entries that went to the reader: all of the log but the gap. */
  function Delivered(world: Runs.World, step: Runs.Step): seq<Runs.Entry>
    requires step.Turned? && step.thread in world.logs
  {
    Runs.Replayed(world, step) + step.after
  }

  lemma {:induction false} DeltaLinesTell(responseId: string, one: seq<string>, other: seq<string>)
    ensures DeltaLines(responseId, one) == DeltaLines(responseId, other) <==> one == other
  {
    if one != [] && other != [] {
      DeltaLinesTell(responseId, one[1..], other[1..]);
      var left, right := DeltaLines(responseId, one), DeltaLines(responseId, other);
      assert left[1..] == DeltaLines(responseId, one[1..]) && right[1..] == DeltaLines(responseId, other[1..]);
      assert one == [one[0]] + one[1..] && other == [other[0]] + other[1..];
      if left == right { assert left[0] == right[0]; }
    }
  }

  lemma {:induction false} GroupsTell(responseId: string, one: seq<string>, other: seq<string>)
    ensures GroupOf(responseId, one) == GroupOf(responseId, other) <==> one == other
  {
    var left, right := GroupOf(responseId, one), GroupOf(responseId, other);
    assert left[1..|left| - 1] == DeltaLines(responseId, one) && right[1..|right| - 1] == DeltaLines(responseId, other);
    DeltaLinesTell(responseId, one, other);
  }

  /** Bridge and runtime stay in step: what the bridge has saved is what the run has saved. */
  lemma {:induction false} PositionsStayInStep(env: Env, s: AppServer.State, call: Call, world: Runs.World, step: Runs.Step)
    requires Carried(env, s, call, world, step)
    ensures var bridge := Talk(env, s, call).state.bridge;
            bridge.Some? && bridge.value.lastSeq == Runs.Next(world, step, env.codec).lastSeq
  {
  }

  /** The whole way from the log to stdout: a message whose turn finishes writes one group with
      exactly the deltas logged for the turn before its first completion, less those of the gap,
      and is accepted exactly when that completion says completed. */
  lemma {:induction false} MessageDeliversOwed(env: Env, s: AppServer.State, id: Id, call: Call, world: Runs.World, step: Runs.Step)
    requires Runs.Faithful(env.codec) && Runs.Inv(world) && Carried(env, s, call, world, step)
    requires Runs.TurnOf(world, step, env.codec).progress.Done?
    ensures var served, delivered := Dispatched(env, s, id, call), Delivered(world, step);
            && served.streamed == GroupOf(step.thread + ":" + step.turn, Runs.Owed(delivered, step.turn))
            && Runs.Ends(delivered, step.turn)
            && (served.reply == Result(id, true) <==> EndedWell(Runs.FirstCompletion(delivered, step.turn).payload))
  {
    Runs.TurnExact(world, step, env.codec);
    var payload := Runs.FirstCompletion(Delivered(world, step), step.turn).payload;
    VerdictIff(payload, Runs.TurnOf(world, step, env.codec).progress.status);
    VerdictIff(payload, Completed);
  }

  /** The group holds everything logged for the turn exactly when the gap spares it. */
  lemma {:induction false} MessageInFullIff(env: Env, s: AppServer.State, id: Id, call: Call, world: Runs.World, step: Runs.Step)
    requires Runs.Faithful(env.codec) && Runs.Inv(world) && Carried(env, s, call, world, step)
    requires Runs.TurnOf(world, step, env.codec).progress.Done?
    ensures Dispatched(env, s, id, call).streamed
              == GroupOf(step.thread + ":" + step.turn, Runs.Owed(Runs.LogAfter(world, step), step.turn))
            <==> Runs.GapSpares(world, step)
  {
    MessageDeliversOwed(env, s, id, call, world, step);
    Runs.TurnExact(world, step, env.codec);
    Runs.GapLosesExactly(world, step, env.codec);
    GroupsTell(step.thread + ":" + step.turn, Runs.Owed(Delivered(world, step), step.turn), Runs.Owed(Runs.LogAfter(world, step), step.turn));
  }

  // ---- Whole sessions ----

  /** A server beside the runtime whose events it reads. */
  datatype Session = Session(server: AppServer.State, world: Runs.World)

  /** The runtime logs on its own account, or the server goes through an input; `step` is what the
      runtime does in the turn of a message. */
  datatype Move = Logs(thread: string, entries: seq<Runs.Entry>) | Serves(input: Input, step: Runs.Step)

  predicate IsMessage(input: Input) {
    input.Request? && !input.version.Wrong? && input.call.Message?
  }

  function BridgeFor(session: Session, call: Call): Option<Bridge>
    requires call.Message?
  {
    Acquired(session.server, call.spawned).bridge
  }

  /** The runtime thread a message ends up on, if it gets that far. */
  function ThreadFor(session: Session, call: Call): Option<string>
    requires call.Message?
  {
    var bridge := BridgeFor(session, call);
    if bridge.None? then None else ThreadOf(bridge.value, call.thread, call.created)
  }

  predicate OpensThread(session: Session, call: Call)
    requires call.Message?
  {
    BridgeFor(session, call).Some? && call.thread !in BridgeFor(session, call).value.threads && call.created.Some?
  }

  /** The world once a message has its thread. */
  function WorldFor(env: Env, session: Session, call: Call): Runs.World
    requires call.Message?
  {
    if OpensThread(session, call) && Runs.Possible(session.world, Runs.Opened(call.created.value), env.codec) then
      Runs.Next(session.world, Runs.Opened(call.created.value), env.codec)
    else session.world
  }

  predicate HasTurn(session: Session, call: Call)
    requires call.Message?
  {
    ThreadFor(session, call).Some? && call.post.Posted? && call.connection.Open?
  }

  predicate IsTurnOf(env: Env, session: Session, call: Call, step: Runs.Step)
    requires call.Message? && HasTurn(session, call)
  {
    && step.Turned? && step.thread == ThreadFor(session, call).value && step.turn == call.post.turn
    && step.chunks == call.connection.chunks && Runs.Possible(WorldFor(env, session, call), step, env.codec)
  }

  /** What the runtime guarantees: good logs, new threads that are new, and turns as in a run. */
  predicate PossibleMove(env: Env, session: Session, move: Move) {
    match move
    case Logs(thread, entries) => Runs.Possible(session.world, Runs.Logged(thread, entries), env.codec)
    case Serves(input, step) =>
      IsMessage(input) ==>
        && (OpensThread(session, input.call) ==> Runs.Possible(session.world, Runs.Opened(input.call.created.value), env.codec))
        && (HasTurn(session, input.call) ==> IsTurnOf(env, session, input.call, step))
  }

  function WorldAfter(env: Env, session: Session, call: Call, step: Runs.Step): Runs.World
    requires call.Message?
  {
    if HasTurn(session, call) && IsTurnOf(env, session, call, step) then Runs.Next(WorldFor(env, session, call), step, env.codec)
    else WorldFor(env, session, call)
  }

  /** A bridge that goes takes its saved positions with it; the next one starts without any. */
  function Settled(server: AppServer.State, world: Runs.World): Runs.World {
    if server.bridge.None? then world.(lastSeq := map[]) else world
  }

  function NextSession(env: Env, session: Session, move: Move): Session {
    match move
    case Logs(thread, entries) =>
      if Runs.Possible(session.world, Runs.Logged(thread, entries), env.codec) then
        session.(world := Runs.Next(session.world, Runs.Logged(thread, entries), env.codec))
      else session
    case Serves(input, step) =>
      var server := Round(env, session.server, input).0;
      Session(server, Settled(server, if IsMessage(input) then WorldAfter(env, session, input.call, step) else session.world))
  }

  function SavedBy(server: AppServer.State): map<string, nat> {
    if server.bridge.Some? then server.bridge.value.lastSeq else map[]
  }

  /** The runtime's world is sound, and its positions are the ones the server's bridge has saved. */
  ghost predicate Linked(session: Session) {
    Runs.Inv(session.world) && session.world.lastSeq == SavedBy(session.server)
  }

  lemma {:induction false} SettledIsSound(server: AppServer.State, world: Runs.World)
    requires Runs.Inv(world)
    ensures Runs.Inv(Settled(server, world))
  {
  }

  lemma {:induction false} WorldForIsSound(env: Env, session: Session, call: Call)
    requires Runs.Faithful(env.codec) && Linked(session) && call.Message?
    requires OpensThread(session, call) ==> Runs.Possible(session.world, Runs.Opened(call.created.value), env.codec)
    ensures Runs.Inv(WorldFor(env, session, call))
    ensures BridgeFor(session, call).Some? ==>
              WorldFor(env, session, call).lastSeq == Connected(BridgeFor(session, call).value, call.thread, call.created).lastSeq
  {
    if OpensThread(session, call) { Runs.InvNext(session.world, Runs.Opened(call.created.value), env.codec); }
  }

  /** A message leaves server and world with the same positions. */
  lemma {:induction false} MessageKeepsLink(env: Env, session: Session, call: Call, step: Runs.Step)
    requires Runs.Faithful(env.codec) && Linked(session) && call.Message?
    requires OpensThread(session, call) ==> Runs.Possible(session.world, Runs.Opened(call.created.value), env.codec)
    requires HasTurn(session, call) ==> IsTurnOf(env, session, call, step)
    ensures Runs.Inv(WorldAfter(env, session, call, step))
    ensures WorldAfter(env, session, call, step).lastSeq == SavedBy(Talk(env, session.server, call).state)
  {
    WorldForIsSound(env, session, call);
    if HasTurn(session, call) {
      var world := WorldFor(env, session, call);
      Runs.InvNext(world, step, env.codec);
      PositionsStayInStep(env, session.server, call, world, step);
    }
  }

  lemma {:induction false} OthersKeepBridge(env: Env, s: AppServer.State, input: Input)
    requires !IsMessage(input)
    ensures var now := Round(env, s, input).0.bridge; now.Some? ==> now == s.bridge
  {
    if input.Request? && !input.version.Wrong? && input.call.App? { AppliedKeepsBridge(env, s, input.call.request); }
  }

  lemma {:induction false} LinkedNext(env: Env, session: Session, move: Move)
    requires Runs.Faithful(env.codec) && Linked(session) && PossibleMove(env, session, move)
    ensures Linked(NextSession(env, session, move))
  {
    match move {
      case Logs(thread, entries) => Runs.InvNext(session.world, Runs.Logged(thread, entries), env.codec);
      case Serves(input, step) =>
        var server := Round(env, session.server, input).0;
        if IsMessage(input) {
          MessageKeepsLink(env, session, input.call, step);
          SettledIsSound(server, WorldAfter(env, session, input.call, step));
        } else {
          OthersKeepBridge(env, session.server, input);
          SettledIsSound(server, session.world);
        }
    }
  }

  /** A turn passes on a first part of what it owes of the delivered log; all of it if it finishes;
      and then all that is owed of the whole log exactly when the gap spares it. */
  ghost predicate PassesOnOwed(world: Runs.World, step: Runs.Step, codec: Codec)
    requires step.Turned? && step.thread in world.logs
  {
    var turned := Runs.TurnOf(world, step, codec);
    && turned.deltas <= Runs.Owed(Delivered(world, step), step.turn)
    && (turned.progress.Done? ==>
          && turned.deltas == Runs.Owed(Delivered(world, step), step.turn)
          && (Runs.InFull(world, step, codec) <==> Runs.GapSpares(world, step)))
  }

  lemma {:induction false} TurnPassesOnOwed(world: Runs.World, step: Runs.Step, codec: Codec)
    requires Runs.Faithful(codec) && Runs.Inv(world) && step.Turned? && Runs.Possible(world, step, codec)
    ensures PassesOnOwed(world, step, codec)
  {
    Runs.TurnIsPrefix(world, step, codec);
    if Runs.TurnOf(world, step, codec).progress.Done? {
      Runs.TurnExact(world, step, codec);
      Runs.GapLosesExactly(world, step, codec);
    }
  }

  /** The lines written for a message: no group without a turn, an empty one without a connection,
      and otherwise one with what the turn passes on, which is what it owes. */
  ghost predicate GroupIsOwed(env: Env, session: Session, call: Call, step: Runs.Step, lines: seq<Line>)
    requires call.Message?
  {
    && lines != []
    && var group := lines[..|lines| - 1];
       if ThreadFor(session, call).None? || call.post.PostFailed? then group == []
       else
         var responseId := ThreadFor(session, call).value + ":" + call.post.turn;
         if call.connection.Refused? then group == GroupOf(responseId, [])
         else
           var world := WorldFor(env, session, call);
           && IsTurnOf(env, session, call, step) && PassesOnOwed(world, step, env.codec)
           && group == GroupOf(responseId, Runs.TurnOf(world, step, env.codec).deltas)
  }

  lemma {:induction false} MessageIsOwed(env: Env, session: Session, input: Input, step: Runs.Step)
    requires Runs.Faithful(env.codec) && Linked(session) && PossibleMove(env, session, Serves(input, step)) && IsMessage(input)
    ensures GroupIsOwed(env, session, input.call, step, Round(env, session.server, input).1)
  {
    var call := input.call;
    var talked, served := Talk(env, session.server, call), Dispatched(env, session.server, ReplyId(input.id), call);
    assert (served.streamed + [served.reply])[..|served.streamed|] == talked.lines;
    WorldForIsSound(env, session, call);
    if HasTurn(session, call) { TurnPassesOnOwed(WorldFor(env, session, call), step, env.codec); }
  }

  // ---- From the first line to the last ----

  predicate PossibleSession(env: Env, session: Session, moves: seq<Move>)
    decreases |moves|
  {
    moves == [] || (PossibleMove(env, session, moves[0]) && PossibleSession(env, NextSession(env, session, moves[0]), moves[1..]))
  }

  function InputsOf(moves: seq<Move>): seq<Input> {
    if moves == [] then []
    else (if moves[0].Serves? then [moves[0].input] else []) + InputsOf(moves[1..])
  }

  /** The parts of an output, each beside the move it was written in: every group is owed. */
  ghost predicate EveryGroupOwed(env: Env, session: Session, moves: seq<Move>, parts: seq<seq<Line>>)
    decreases |moves|
  {
    if moves == [] then parts == []
    else
      var next := NextSession(env, session, moves[0]);
      match moves[0]
      case Logs(_, _) => EveryGroupOwed(env, next, moves[1..], parts)
      case Serves(input, step) =>
        && parts != [] && (IsMessage(input) ==> GroupIsOwed(env, session, input.call, step, parts[0]))
        && if Stops(input) then |parts| == 1 else EveryGroupOwed(env, next, moves[1..], parts[1..])
  }

  /** Over a whole session, bridges coming and going, turns failing and the runtime logging as it
      likes, everything the stdio loop writes between a response start and its end is owed. */
  lemma {:induction false} SessionIsOwed(env: Env, session: Session, moves: seq<Move>)
    requires Runs.Faithful(env.codec) && Linked(session) && PossibleSession(env, session, moves)
    ensures EveryGroupOwed(env, session, moves, Rounds(env, session.server, InputsOf(moves)).parts)
    decreases |moves|
  {
    if moves != [] {
      var next := NextSession(env, session, moves[0]);
      LinkedNext(env, session, moves[0]);
      InputsCons(moves);
      match moves[0] {
        case Logs(_, _) => SessionIsOwed(env, next, moves[1..]);
        case Serves(input, step) =>
          RoundsCons(env, session.server, input, InputsOf(moves[1..]));
          if IsMessage(input) { MessageIsOwed(env, session, input, step); }
          if !Stops(input) { SessionIsOwed(env, next, moves[1..]); }
      }
    }
  }

  lemma {:induction false} InputsCons(moves: seq<Move>)
    requires moves != []
    ensures InputsOf(moves) == if moves[0].Serves? then [moves[0].input] + InputsOf(moves[1..]) else InputsOf(moves[1..])
  {
  }

  lemma {:induction false} RoundsCons(env: Env, s: AppServer.State, input: Input, later: seq<Input>)
    ensures var now, parts := Round(env, s, input), Rounds(env, s, [input] + later).parts;
            && parts != [] && parts[0] == now.1
            && if Stops(input) then |parts| == 1 else parts[1..] == Rounds(env, now.0, later).parts
  {
    assert ([input] + later)[1..] == later;
  }

  /** A server that has just started beside a runtime with good logs is linked to it. */
  lemma {:induction false} StartIsLinked(disk: Disk, logs: map<string, seq<Runs.Entry>>)
    requires forall thread :: thread in logs ==> Runs.GoodLog(logs[thread])
    ensures Linked(Session(Initial(disk), Runs.World(map[], logs)))
  {
  }

  // ---- One runtime thread each ----

  /** No two stdio threads are on one runtime thread, and each of those has its log. */
  ghost predicate Apart(session: Session) {
    session.server.bridge.Some? ==>
      var threads := session.server.bridge.value.threads;
      && (forall t :: t in threads ==> threads[t] in session.world.logs)
      && (forall t, u :: t in threads && u in threads && t != u ==> threads[t] != threads[u])
  }

  lemma {:induction false} LogsStay(env: Env, session: Session, move: Move)
    requires PossibleMove(env, session, move)
    ensures forall thread :: thread in session.world.logs ==> thread in NextSession(env, session, move).world.logs
  {
  }

  lemma {:induction false} TalkConnects(env: Env, session: Session, call: Call)
    requires call.Message?
    ensures var bridge := BridgeFor(session, call);
            var now := Talk(env, session.server, call).state.bridge;
            if bridge.None? then now.None?
            else now.Some? && now.value.threads == Connected(bridge.value, call.thread, call.created).threads
  {
  }

  /** In every session different stdio threads stay on different runtime threads. */
  lemma {:induction false} ApartNext(env: Env, session: Session, move: Move)
    requires Apart(session) && PossibleMove(env, session, move)
    ensures Apart(NextSession(env, session, move))
  {
    LogsStay(env, session, move);
    if move.Serves? {
      if IsMessage(move.input) {
        TalkConnects(env, session, move.input.call);
        if OpensThread(session, move.input.call) { CreatedIsLogged(env, session, move.input.call, move.step); }
      } else {
        OthersKeepBridge(env, session.server, move.input);
      }
    }
  }

  lemma {:induction false} CreatedIsLogged(env: Env, session: Session, call: Call, step: Runs.Step)
    requires call.Message? && OpensThread(session, call)
    requires Runs.Possible(session.world, Runs.Opened(call.created.value), env.codec)
    ensures call.created.value !in session.world.logs && call.created.value in WorldAfter(env, session, call, step).logs
  {
  }
}
