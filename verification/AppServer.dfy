/** The stdio app-server of crates/app-server/src/lib.rs: one request at a time, each answered
    once, with config updates that must reach the shared config, the runtime and the cached
    bridge. */
module AppServer {
  import opened Options
  import opened Output
  import opened SseFraming
  import opened SseMessages
  import opened TurnStream
  import opened RuntimeBridges

  type Config = map<string, string>

  datatype Edit = Edit(ok: bool, config: Config)

  /** ConfigToml::set_value and unset_value, whatever they do. */
  datatype Editor = Editor(assign: (Config, string, string) -> Edit, erase: (Config, string) -> Edit)

  /** What stays the same while a server runs; `persistent` when it was given a config path. */
  datatype Env = Env(editor: Editor, codec: Codec, persistent: bool)

  /** What is on disk: config.toml and the policy of permissions.toml. */
  datatype Disk = Disk(config: Config, policy: string)

  datatype AppRequest =
    | ConfigSet(key: string, value: string, saved: bool)
    | ConfigUnset(key: string, saved: bool)
    | ConfigReload(loaded: Option<Disk>)
    | SubmitUserInput(requestId: string, answer: string)
    | OtherApp(ok: bool)

  /** A call, with what the outside world answers to it. */
  datatype Call =
    | Fixed                                    // healthz, capabilities
    | Runtime(ok: bool)                        // thread/* requests handled by the runtime
    | Prompt(responseId: string, ok: bool)     // the runtime announces a model on stdout, then may fail
    | App(request: AppRequest)
    | Message(thread: string, spawned: bool, created: Option<string>, post: Post, connection: Connection)
    | BadParams
    | Unknown
    | Shutdown

  datatype Version = Missing | Two | Wrong

  /** What a server goes through: a line of input, where a request has no id, a null one, or one
      that is given; or, between two lines, an edit of its files by someone else. */
  datatype Input = Blank | Unparsable | Request(id: Option<Id>, version: Version, call: Call) | DiskEdited(found: Disk)

  predicate Silent(input: Input) {
    input.Blank? || input.DiskEdited?
  }

  // ---- The grammar of the output ----

  const PARSE_ERROR := -32700
  const INVALID_REQUEST := -32600
  const METHOD_NOT_FOUND := -32601
  const INVALID_PARAMS := -32602
  const INTERNAL_ERROR := -32603

  predicate Group(lines: seq<Line>) {
    && |lines| >= 2 && lines[0].ResponseStart?
    && lines[|lines| - 1] == ResponseEnd(lines[0].responseId)
    && forall i :: 0 < i < |lines| - 1 ==> lines[i].ResponseDelta? && lines[i].responseId == lines[0].responseId
  }

  /** The reply an input gets, with the error codes of section 5.1 of JSON-RPC 2.0. */
  predicate Answers(input: Input, reply: Line) {
    match input
    case Blank => false
    case DiskEdited(_) => false
    case Unparsable => reply == Error(Null, -32700)
    case Request(id, Wrong, _) => reply == Error((if id.Some? then id.value else Null), -32600)
    case Request(id, _, BadParams) => reply == Error((if id.Some? then id.value else Null), -32602)
    case Request(id, _, Unknown) => reply == Error((if id.Some? then id.value else Null), -32601)
    case Request(id, _, Runtime(ok)) => reply == if ok then Result((if id.Some? then id.value else Null), true) else Error((if id.Some? then id.value else Null), -32603)
    case Request(id, _, Prompt(_, ok)) => reply == if ok then Result((if id.Some? then id.value else Null), true) else Error((if id.Some? then id.value else Null), -32603)
    case Request(id, _, App(_)) => reply.Result? && reply.id == (if id.Some? then id.value else Null)
    case Request(id, _, Message(_, _, _, _, _)) => reply == Result((if id.Some? then id.value else Null), true) || reply == Error((if id.Some? then id.value else Null), -32603)
    case Request(id, _, _) => reply == Result((if id.Some? then id.value else Null), true)
  }

  predicate MayStream(input: Input) {
    input.Request? && !input.version.Wrong? && (input.call.Message? || input.call.Prompt?)
  }

  predicate Stops(input: Input) {
    input.Request? && !input.version.Wrong? && input.call.Shutdown?
  }

  /** The lines written for one input: nothing for a blank one; otherwise at most one closed
      group, and then exactly one reply. No message is accepted without a group, and no prompt,
      even one that fails, is answered without one. */
  predicate Response(input: Input, lines: seq<Line>) {
    if Silent(input) then lines == []
    else
      && lines != [] && Answers(input, lines[|lines| - 1])
      && (|lines| == 1 || (MayStream(input) && Group(lines[..|lines| - 1])))
      && (MayStream(input) && |lines| == 1 ==> input.call.Message? && lines[0].Error?)
  }

  /** The output, input by input: a response to each in turn, up to and including a shutdown. */
  predicate Transcript(inputs: seq<Input>, parts: seq<seq<Line>>) {
    && |parts| <= |inputs|
    && (forall i :: 0 <= i < |parts| ==> Response(inputs[i], parts[i]))
    && (forall i :: 0 <= i < |parts| - 1 ==> !Stops(inputs[i]))
    && (|parts| < |inputs| ==> parts != [] && Stops(inputs[|parts| - 1]))
  }

  function Concat(parts: seq<seq<Line>>): seq<Line> {
    if parts == [] then [] else parts[0] + Concat(parts[1..])
  }

  /** The code does not tell a missing id from a null one. */
  function ReplyId(id: Option<Id>): Id {
    if id.Some? then id.value else Null
  }

  function IdOf(input: Input): Id {
    match input
    case Request(Some(id), _, _) => id
    case _ => Null
  }

  /** The ids of the inputs that are owed a reply. */
  function OwedIds(inputs: seq<Input>): seq<Id> {
    if inputs == [] then []
    else
      (if Silent(inputs[0]) then [] else [IdOf(inputs[0])])
      + if Stops(inputs[0]) then [] else OwedIds(inputs[1..])
  }

  function ReplyIds(lines: seq<Line>): seq<Id> {
    if lines == [] then [] else (if IsReply(lines[0]) then [lines[0].id] else []) + ReplyIds(lines[1..])
  }

  lemma {:induction false} ReplyIdsAppend(front: seq<Line>, back: seq<Line>)
    ensures ReplyIds(front + back) == ReplyIds(front) + ReplyIds(back)
  {
    if front == [] {
      assert front + back == back;
    } else {
      assert front == [front[0]] + front[1..] && front + back == [front[0]] + (front[1..] + back);
      ReplyIdsCons(front[0], front[1..]);
      ReplyIdsCons(front[0], front[1..] + back);
      ReplyIdsAppend(front[1..], back);
    }
  }

  lemma {:induction false} ReplyIdsCons(line: Line, lines: seq<Line>)
    ensures ReplyIds([line] + lines) == if IsReply(line) then [line.id] + ReplyIds(lines) else ReplyIds(lines)
  {
    assert ([line] + lines)[1..] == lines && [] + ReplyIds(lines) == ReplyIds(lines);
  }

  lemma {:induction false} NoReplies(lines: seq<Line>)
    requires forall i :: 0 <= i < |lines| ==> !IsReply(lines[i])
    ensures ReplyIds(lines) == []
  {
    if lines != [] { NoReplies(lines[1..]); }
  }

  lemma {:induction false} AnswersWithId(input: Input, reply: Line)
    requires Answers(input, reply)
    ensures IsReply(reply) && reply.id == IdOf(input)
  {
  }

  lemma {:induction false} ResponseReplies(input: Input, lines: seq<Line>)
    requires Response(input, lines) && !Silent(input)
    ensures ReplyIds(lines) == [IdOf(input)]
  {
    var streamed, reply := lines[..|lines| - 1], lines[|lines| - 1];
    AnswersWithId(input, reply);
    assert lines == streamed + [reply];
    ReplyIdsAppend(streamed, [reply]);
    if streamed != [] { GroupHasNoReply(streamed); }
    OneReply(reply);
  }

  lemma {:induction false} GroupHasNoReply(lines: seq<Line>)
    requires Group(lines)
    ensures ReplyIds(lines) == []
  {
    NoReplies(lines);
  }

  lemma {:induction false} OneReply(reply: Line)
    requires IsReply(reply)
    ensures ReplyIds([reply]) == [reply.id]
  {
    assert [reply][1..] == [];
  }

  /** Every owed reply is given once, in the order of the input, and there are no others. */
  lemma {:induction false} TranscriptReplies(inputs: seq<Input>, parts: seq<seq<Line>>)
    requires Transcript(inputs, parts)
    ensures ReplyIds(Concat(parts)) == OwedIds(inputs)
    decreases |inputs|
  {
    if inputs != [] {
      var first, rest := parts[0], parts[1..];
      ReplyIdsAppend(first, Concat(rest));
      if !Silent(inputs[0]) { ResponseReplies(inputs[0], first); }
      if Stops(inputs[0]) {
        assert |parts| == 1 && rest == [];
      } else {
        assert forall i :: 0 <= i < |rest| ==> rest[i] == parts[i + 1] && inputs[1..][i] == inputs[i + 1];
        if |rest| < |inputs| - 1 { assert inputs[1..][|rest| - 1] == inputs[|parts| - 1]; }
        TranscriptReplies(inputs[1..], rest);
      }
    }
  }

  lemma {:induction false} MakeResponse(input: Input, streamed: seq<Line>, reply: Line)
    requires !Silent(input) && Answers(input, reply)
    requires streamed == [] || (MayStream(input) && Group(streamed))
    requires MayStream(input) && (input.call.Prompt? || reply.Result?) ==> streamed != []
    ensures Response(input, streamed + [reply])
  {
    assert (streamed + [reply])[..|streamed|] == streamed;
  }

  lemma {:induction false} DeltasOnly(responseId: string, deltas: seq<string>)
    ensures |DeltaLines(responseId, deltas)| == |deltas|
    ensures forall i :: 0 <= i < |deltas| ==> DeltaLines(responseId, deltas)[i] == ResponseDelta(responseId, deltas[i])
  {
    if deltas != [] { DeltasOnly(responseId, deltas[1..]); }
  }

  lemma {:induction false} OneDelta(responseId: string, delta: string)
    ensures DeltaLines(responseId, [delta]) == [ResponseDelta(responseId, delta)]
  {
    assert [delta][1..] == [];
  }

  lemma {:induction false} StreamedGroup(responseId: string, deltas: seq<string>)
    ensures Group(GroupOf(responseId, deltas))
  {
    DeltasOnly(responseId, deltas);
  }

  // ---- The server, on values ----

  /** A bridge in the cache runs a child that read `childConfig` when it was spawned. `updates`
      counts the config updates applied so far, `spawnedAt` those applied when that child was
      spawned; `edited` when someone else has edited the files since the last update. */
  datatype State = State(
    config: Config,
    runtimeConfig: Config,
    policy: string,
    disk: Disk,
    bridge: Option<Bridge>,
    childConfig: Config,
    answers: map<string, string>,
    updates: nat,
    spawnedAt: nat,
    edited: bool)

  function Initial(disk: Disk): State {
    State(disk.config, disk.config, disk.policy, disk, None, disk.config, map[], 0, 0, false)
  }

  function Updated(env: Env, s: State, snapshot: Config, policy: Option<string>, persist: bool, saved: bool): State {
    s.(disk := if persist && env.persistent && saved then s.disk.(config := snapshot) else s.disk,
       config := snapshot,
       runtimeConfig := snapshot,
       policy := if policy.Some? then policy.value else s.policy,
       bridge := None,
       updates := s.updates + 1,
       edited := false)
  }

  datatype Applied = Applied(state: State, ok: bool)

  function AppliedTo(env: Env, s: State, request: AppRequest): Applied {
    match request
    case ConfigSet(key, value, saved) =>
      var edit := env.editor.assign(s.config, key, value);
      Applied(Updated(env, s, edit.config, None, true, saved), edit.ok)
    case ConfigUnset(key, saved) =>
      var edit := env.editor.erase(s.config, key);
      Applied(Updated(env, s, edit.config, None, true, saved), edit.ok)
    case ConfigReload(None) => Applied(s, false)
    case ConfigReload(Some(found)) =>
      Applied(Updated(env, s.(disk := found), found.config, Some(found.policy), false, false), true)
    case SubmitUserInput(requestId, answer) =>
      if requestId in s.answers then Applied(s, false)
      else Applied(s.(answers := s.answers[requestId := answer]), true)
    case OtherApp(ok) => Applied(s, ok)
  }

  function Acquired(s: State, spawned: bool): State {
    if s.bridge.Some? || !spawned then s
    else s.(bridge := Some(Bridge(map[], map[])), childConfig := s.disk.config, spawnedAt := s.updates)
  }

  datatype Talked = Talked(state: State, accepted: bool, lines: seq<Line>)

  function Talk(env: Env, s: State, call: Call): Talked
    requires call.Message?
  {
    var now := Acquired(s, call.spawned);
    if now.bridge.None? then Talked(now, false, [])
    else
      var thread := ThreadOf(now.bridge.value, call.thread, call.created);
      var known := Connected(now.bridge.value, call.thread, call.created);
      if thread.None? then Talked(now, false, [])
      else
        var exchange := Exchanged(known, thread.value, call.post, call.connection, env.codec);
        Talked(now.(bridge := Some(exchange.bridge)), exchange.answer.Accepted?, exchange.lines)
  }

  datatype Served = Served(state: State, streamed: seq<Line>, reply: Line)

  function Dispatched(env: Env, s: State, id: Id, call: Call): Served {
    match call
    case Fixed => Served(s, [], Result(id, true))
    case Runtime(ok) => Served(s, [], if ok then Result(id, true) else Error(id, INTERNAL_ERROR))
    case Prompt(responseId, ok) =>
      Served(s, GroupOf(responseId, ["model-selected"]), if ok then Result(id, true) else Error(id, INTERNAL_ERROR))
    case App(request) => var applied := AppliedTo(env, s, request); Served(applied.state, [], Result(id, applied.ok))
    case Message(_, _, _, _, _) =>
      var talked := Talk(env, s, call);
      Served(talked.state, talked.lines, if talked.accepted then Result(id, true) else Error(id, INTERNAL_ERROR))
    case BadParams => Served(s, [], Error(id, INVALID_PARAMS))
    case Unknown => Served(s, [], Error(id, METHOD_NOT_FOUND))
    case Shutdown => Served(s.(bridge := None), [], Result(id, true))
  }

  datatype Run = Run(state: State, parts: seq<seq<Line>>)

  /** One round: the new state and the lines written. */
  function Round(env: Env, s: State, input: Input): (State, seq<Line>) {
    match input
    case Blank => (s, [])
    case DiskEdited(found) => (s.(disk := found, edited := true), [])
    case Unparsable => (s, [Error(Null, PARSE_ERROR)])
    case Request(id, Wrong, _) => (s, [Error(ReplyId(id), INVALID_REQUEST)])
    case Request(id, _, call) =>
      var served := Dispatched(env, s, ReplyId(id), call);
      (served.state, served.streamed + [served.reply])
  }

  function Rounds(env: Env, s: State, inputs: seq<Input>): Run
    decreases |inputs|
  {
    if inputs == [] then Run(s, [])
    else
      var now := Round(env, s, inputs[0]);
      if Stops(inputs[0]) then Run(now.0, [now.1])
      else
        var later := Rounds(env, now.0, inputs[1..]);
        Run(later.state, [now.1] + later.parts)
  }

  // ---- What every round keeps ----

  /** Shared config and runtime config agree, and a cached bridge is no older than the last
      applied update; if that update is what the disk holds, and nobody else has edited it since,
      its child runs on that very config. */
  predicate Coherent(s: State) {
    && s.config == s.runtimeConfig
    && (s.bridge.Some? ==> s.spawnedAt == s.updates && (s.disk.config == s.config && !s.edited ==> s.childConfig == s.config))
  }

  lemma {:induction false} RoundKeepsCoherent(env: Env, s: State, input: Input)
    requires Coherent(s)
    ensures Coherent(Round(env, s, input).0)
  {
    if input.Request? && !input.version.Wrong? {
      match input.call {
        case App(request) => AppliedKeepsCoherent(env, s, request);
        case Message(_, _, _, _, _) => TalkKeeps(env, s, input.call);
        case _ =>
      }
    }
  }

  lemma {:induction false} AppliedKeepsCoherent(env: Env, s: State, request: AppRequest)
    requires Coherent(s)
    ensures Coherent(AppliedTo(env, s, request).state)
  {
  }

  /** A message touches nothing but the cached bridge. */
  lemma {:induction false} TalkKeeps(env: Env, s: State, call: Call)
    requires call.Message?
    ensures var now := Talk(env, s, call).state;
            && now == s.(bridge := now.bridge, childConfig := now.childConfig, spawnedAt := now.spawnedAt)
            && (s.bridge.Some? ==> now.childConfig == s.childConfig && now.spawnedAt == s.spawnedAt)
            && (s.bridge.None? && now.bridge.Some? ==> now.childConfig == s.disk.config && now.spawnedAt == s.updates)
  {
  }

  predicate Reloads(input: Input) {
    && input.Request? && !input.version.Wrong? && input.call.App?
    && input.call.request.ConfigReload? && input.call.request.loaded.Some?
  }

  predicate Edits(input: Input) {
    && input.Request? && !input.version.Wrong? && input.call.App?
    && (input.call.request.ConfigSet? || input.call.request.ConfigUnset?)
  }

  /** The policy comes from the last successful reload only; the shared config changes with an
      edit or such a reload only; a failed reload changes nothing at all. */
  lemma {:induction false} OnlyReloadsMovePolicy(env: Env, s: State, input: Input)
    ensures var now := Round(env, s, input).0;
            && now.policy == (if Reloads(input) then input.call.request.loaded.value.policy else s.policy)
            && (!Reloads(input) && !Edits(input) ==> now.config == s.config && now.runtimeConfig == s.runtimeConfig)
            && (!Reloads(input) && !Edits(input) && !input.DiskEdited? ==> now.disk == s.disk)
            && (input.Request? && input.call == App(ConfigReload(None)) ==> now == s)
  {
    if input.Request? && !input.version.Wrong? {
      match input.call {
        case App(request) => AppliedMoves(env, s, request);
        case Message(_, _, _, _, _) => TalkKeeps(env, s, input.call);
        case _ =>
      }
    }
  }

  lemma {:induction false} AppliedMoves(env: Env, s: State, request: AppRequest)
    ensures var now := AppliedTo(env, s, request).state;
            && now.policy == (if request.ConfigReload? && request.loaded.Some? then request.loaded.value.policy else s.policy)
            && (request.OtherApp? || request.SubmitUserInput? ==> now == s.(answers := now.answers))
            && (request == ConfigReload(None) ==> now == s)
  {
  }

  /** An update reaches the shared config, the runtime and the bridge at once, also when the edit
      itself reports an error; and the disk when there is one to reach. */
  lemma {:induction false} UpdateReachesAll(env: Env, s: State, input: Input)
    requires Reloads(input) || Edits(input)
    ensures var now := Round(env, s, input).0;
            && now.config == now.runtimeConfig && now.bridge.None? && now.updates == s.updates + 1
            && (Reloads(input) ==> now.config == now.disk.config == input.call.request.loaded.value.config)
            && (Edits(input) ==>
                  now.disk == if env.persistent && input.call.request.saved then s.disk.(config := now.config) else s.disk)
            && now.answers == s.answers
  {
    assert Round(env, s, input).0 == AppliedTo(env, s, input.call.request).state;
  }

  /** An answer once recorded is never replaced, and a request is told so. */
  lemma {:induction false} AnswersStay(env: Env, s: State, input: Input, requestId: string)
    requires requestId in s.answers
    ensures var now := Round(env, s, input).0;
            requestId in now.answers && now.answers[requestId] == s.answers[requestId]
    ensures input.Request? && !input.version.Wrong? && input.call.App? && input.call.request.SubmitUserInput?
            && input.call.request.requestId == requestId ==>
              Round(env, s, input).1 == [Result(ReplyId(input.id), false)]
  {
    if input.Request? && !input.version.Wrong? && input.call.Message? {
      TalkKeeps(env, s, input.call);
    }
  }

  /** As long as a bridge stays in the cache, the threads it knows keep their runtime threads and
      no saved position moves back. */
  lemma {:induction false} CachedBridgeMovesOn(env: Env, s: State, input: Input)
    requires s.bridge.Some? && Round(env, s, input).0.bridge.Some?
    ensures var now := Round(env, s, input).0.bridge.value;
            && NoneMovedBack(s.bridge.value.lastSeq, now.lastSeq)
            && forall t :: t in s.bridge.value.threads ==> t in now.threads && now.threads[t] == s.bridge.value.threads[t]
  {
    if input.Request? && !input.version.Wrong? {
      match input.call {
        case App(request) => AppliedKeepsBridge(env, s, request);
        case Message(_, _, _, _, _) => TalkMovesOn(env, s, input.call);
        case _ =>
      }
    }
  }

  lemma {:induction false} AppliedKeepsBridge(env: Env, s: State, request: AppRequest)
    ensures var now := AppliedTo(env, s, request).state; now.bridge.Some? ==> now.bridge == s.bridge
  {
  }

  lemma {:induction false} TalkMovesOn(env: Env, s: State, call: Call)
    requires call.Message? && s.bridge.Some?
    ensures var was, now := s.bridge.value, Talk(env, s, call).state.bridge;
            now.Some? && NoneMovedBack(was.lastSeq, now.value.lastSeq)
            && forall t :: t in was.threads ==> t in now.value.threads && now.value.threads[t] == was.threads[t]
  {
    var bridge := s.bridge.value;
    var thread, known := ThreadOf(bridge, call.thread, call.created), Connected(bridge, call.thread, call.created);
    ConnectedMovesOn(bridge, call.thread, call.created);
    if thread.Some? {
      ExchangeKeepsPositions(known, thread.value, call.post, call.connection, env.codec);
      var now := Exchanged(known, thread.value, call.post, call.connection, env.codec).bridge;
      PositionsMoveOn(bridge.lastSeq, known.lastSeq, now.lastSeq);
    }
  }

  lemma {:induction false} ConnectedMovesOn(bridge: Bridge, thread: string, created: Option<string>)
    ensures var now := Connected(bridge, thread, created);
            && NoneMovedBack(bridge.lastSeq, now.lastSeq)
            && forall t :: t in bridge.threads ==> t in now.threads && now.threads[t] == bridge.threads[t]
  {
  }

  predicate Asks(input: Input) {
    input.Request? && !input.version.Wrong? && input.call.App?
  }

  /** The edit a set or an unset stands for. */
  function EditBy(env: Env, config: Config, request: AppRequest): Edit
    requires request.ConfigSet? || request.ConfigUnset?
  {
    if request.ConfigSet? then env.editor.assign(config, request.key, request.value) else env.editor.erase(config, request.key)
  }

  /** What each app request does and is told: an edit is installed and its verdict replied; a
      reload installs what it finds; an answer is recorded if it is the first for its request. */
  lemma {:induction false} AppRequestsDone(env: Env, s: State, input: Input)
    requires Asks(input)
    ensures var request, now, id := input.call.request, Round(env, s, input).0, ReplyId(input.id);
            var ok := Round(env, s, input).1 == [Result(id, true)];
            && (Round(env, s, input).1 == [Result(id, true)] || Round(env, s, input).1 == [Result(id, false)])
            && (Edits(input) ==> now.config == now.runtimeConfig == EditBy(env, s.config, request).config
                                 && ok == EditBy(env, s.config, request).ok)
            && (request.ConfigReload? ==> ok == request.loaded.Some?)
            && (Reloads(input) ==> now.config == request.loaded.value.config && now.policy == request.loaded.value.policy)
            && (request.SubmitUserInput? ==>
                  && ok == (request.requestId !in s.answers)
                  && now == s.(answers := if ok then s.answers[request.requestId := request.answer] else s.answers))
            && (request.OtherApp? ==> ok == request.ok && now == s)
  {
    var applied := AppliedTo(env, s, input.call.request);
    assert Round(env, s, input).1 == [] + [Result(ReplyId(input.id), applied.ok)] == [Result(ReplyId(input.id), applied.ok)];
    assert Round(env, s, input).0 == applied.state;
    AppliedDone(env, s, input.call.request);
  }

  lemma {:induction false} AppliedDone(env: Env, s: State, request: AppRequest)
    ensures var applied := AppliedTo(env, s, request);
            && (request.ConfigSet? || request.ConfigUnset? ==>
                  && applied.state.config == applied.state.runtimeConfig == EditBy(env, s.config, request).config
                  && applied.ok == EditBy(env, s.config, request).ok)
            && (request.SubmitUserInput? ==>
                  && applied.ok == (request.requestId !in s.answers)
                  && applied.state == s.(answers := if applied.ok then s.answers[request.requestId := request.answer] else s.answers))
  {
  }

  /** Whatever follows a shutdown is not even read. */
  lemma {:induction false} NothingAfterShutdown(env: Env, s: State, before: seq<Input>, id: Option<Id>, version: Version, after: seq<Input>)
    requires !version.Wrong?
    ensures Rounds(env, s, before + [Request(id, version, Shutdown)] + after)
         == Rounds(env, s, before + [Request(id, version, Shutdown)])
    decreases |before|
  {
    var last := Request(id, version, Shutdown);
    if before == [] {
      assert (before + [last] + after)[0] == last && (before + [last])[0] == last;
    } else {
      assert (before + [last] + after)[1..] == before[1..] + [last] + after && (before + [last])[1..] == before[1..] + [last];
      if !Stops(before[0]) { NothingAfterShutdown(env, Round(env, s, before[0]).0, before[1..], id, version, after); }
    }
  }

  /** A shutdown lets go of the bridge, and of nothing else. */
  lemma {:induction false} ShutdownDropsBridge(env: Env, s: State, input: Input)
    requires Stops(input)
    ensures Round(env, s, input) == (s.(bridge := None), [Result(ReplyId(input.id), true)])
  {
    assert [] + [Result(ReplyId(input.id), true)] == [Result(ReplyId(input.id), true)];
  }

  /** A prompt is announced by three lines, whether it then succeeds or fails, and changes nothing. */
  lemma {:induction false} PromptAnnounces(env: Env, s: State, id: Id, responseId: string, ok: bool)
    ensures Dispatched(env, s, id, Prompt(responseId, ok))
         == Served(s, [ResponseStart(responseId), ResponseDelta(responseId, "model-selected"), ResponseEnd(responseId)],
                   if ok then Result(id, true) else Error(id, -32603))
  {
    OneDelta(responseId, "model-selected");
  }

  /** The group of a message names the runtime thread its stdio thread is on: the one it was on
      before, or else the one just created, which it is on from then on. */
  lemma {:induction false} GroupNamesThread(env: Env, s: State, call: Call)
    requires call.Message? && Talk(env, s, call).lines != []
    ensures var talked := Talk(env, s, call);
            && talked.state.bridge.Some? && call.thread in talked.state.bridge.value.threads
            && talked.lines[0] == ResponseStart(talked.state.bridge.value.threads[call.thread] + ":" + call.post.turn)
            && if s.bridge.Some? && call.thread in s.bridge.value.threads then
                 talked.state.bridge.value.threads == s.bridge.value.threads
               else call.created == Some(talked.state.bridge.value.threads[call.thread])
  {
  }

  lemma {:induction false} RoundResponds(env: Env, s: State, input: Input)
    ensures Response(input, Round(env, s, input).1)
  {
    if input.Request? && !input.version.Wrong? {
      var served := Dispatched(env, s, ReplyId(input.id), input.call);
      if input.call.Message? { TalkStreams(env, s, input.call); }
      if input.call.Prompt? { StreamedGroup(input.call.responseId, ["model-selected"]); }
      MakeResponse(input, served.streamed, served.reply);
    }
  }

  lemma {:induction false} TalkStreams(env: Env, s: State, call: Call)
    requires call.Message?
    ensures var talked := Talk(env, s, call); if talked.lines == [] then !talked.accepted else Group(talked.lines)
  {
    var now := Acquired(s, call.spawned);
    if now.bridge.Some? {
      var thread := ThreadOf(now.bridge.value, call.thread, call.created);
      var known := Connected(now.bridge.value, call.thread, call.created);
      if thread.Some? && call.post.Posted? {
        var turned := Streamed(call.connection, call.post.turn, env.codec, Since(known.lastSeq, thread.value));
        StreamedGroup(thread.value + ":" + call.post.turn, turned.deltas);
      }
    }
  }

  /** The first completion of a turn among the messages of some chunks, if there is one that
      everything before it lets through, ended it well. */
  ghost predicate ReachesGoodEnd(chunks: seq<string>, turn: string, codec: Codec) {
    exists i: nat, payload ::
      CompletesTurn(Received(Feed(chunks, "").frames), turn, codec, i, payload) && EndedWell(payload)
  }

  /** What the loop makes of the stream a message reads, if it gets to reading one. */
  function Read(env: Env, s: State, call: Call): Option<Progress>
    requires call.Message?
  {
    var bridge := Acquired(s, call.spawned).bridge;
    if bridge.None? || !call.post.Posted? || !call.connection.Open? then None
    else
      var thread := ThreadOf(bridge.value, call.thread, call.created);
      if thread.None? then None
      else Some(Stream(call.connection.chunks, "", call.post.turn, env.codec, Since(bridge.value.lastSeq, thread.value)).progress)
  }

  lemma {:induction false} AcceptedByProgress(env: Env, s: State, call: Call)
    requires call.Message?
    ensures var read := Read(env, s, call);
            Talk(env, s, call).accepted <==> read.Some? && read.value.Done? && read.value.status.Completed?
  {
  }

  /** A message is accepted exactly when a bridge and a runtime thread are found, the turn is
      posted and connected, its stream is read to its completion, and that has no status or none of
      the four words for a turn that did not end well. */
  lemma {:induction false} AcceptedIff(env: Env, s: State, id: Id, call: Call)
    requires call.Message?
    ensures var read := Read(env, s, call);
            Dispatched(env, s, id, call).reply == Result(id, true) <==>
              read.Some? && read.value.Done? && ReachesGoodEnd(call.connection.chunks, call.post.turn, env.codec)
  {
    AcceptedByProgress(env, s, call);
    if Read(env, s, call).Some? {
      var bridge := Acquired(s, call.spawned).bridge.value;
      var thread := ThreadOf(bridge, call.thread, call.created).value;
      GoodEndIff(call.connection.chunks, call.post.turn, env.codec, Since(bridge.lastSeq, thread));
    }
  }

  lemma {:induction false} GoodEndIff(chunks: seq<string>, turn: string, codec: Codec, since: nat)
    ensures var progress := Stream(chunks, "", turn, codec, since).progress;
            progress.Done? ==> (progress.status.Completed? <==> ReachesGoodEnd(chunks, turn, codec))
  {
    var messages := Received(Feed(chunks, "").frames);
    var progress := Stream(chunks, "", turn, codec, since).progress;
    StreamIsConsume(chunks, "", turn, codec, since);
    ConsumeDoneIff(messages, turn, codec, since);
    if progress.Done? {
      var i: nat, payload :| CompletesTurn(messages, turn, codec, i, payload);
      assert EndsWith(progress, payload);
      VerdictIff(payload, progress.status);
      VerdictIff(payload, Completed);
      forall k: nat, other | CompletesTurn(messages, turn, codec, k, other) ensures other == payload {
        OneCompletion(messages, turn, codec, i, payload, k, other);
      }
    }
  }

  lemma {:induction false} OneCompletion(messages: seq<Message>, turn: string, codec: Codec, i: nat, one: Payload, k: nat, other: Payload)
    requires CompletesTurn(messages, turn, codec, i, one) && CompletesTurn(messages, turn, codec, k, other)
    ensures i == k && one == other
  {
  }

  /** In every run the output is a transcript of the whole input, every owed reply is given once
      and in order, and what each round keeps is kept to the end. */
  lemma {:induction false} RunResponds(env: Env, s: State, inputs: seq<Input>)
    requires Coherent(s)
    ensures var run := Rounds(env, s, inputs);
            Coherent(run.state) && Transcript(inputs, run.parts) && ReplyIds(Concat(run.parts)) == OwedIds(inputs)
    decreases |inputs|
  {
    TranscriptOfRun(env, s, inputs);
    TranscriptReplies(inputs, Rounds(env, s, inputs).parts);
  }

  /** The inputs a server gets to: all up to and including the first shutdown. */
  predicate Reached(inputs: seq<Input>, i: nat) {
    i < |inputs| && forall j :: 0 <= j < i ==> !Stops(inputs[j])
  }

  lemma {:induction false} ReachedLater(inputs: seq<Input>, i: nat)
    requires inputs != [] && !Stops(inputs[0])
    ensures Reached(inputs[1..], i) <==> Reached(inputs, i + 1)
  {
    assert forall j :: 0 <= j < |inputs| - 1 ==> inputs[1..][j] == inputs[j + 1];
    if Reached(inputs[1..], i) {
      forall j | 0 <= j < i + 1 ensures !Stops(inputs[j]) {
        if j > 0 { assert !Stops(inputs[1..][j - 1]); }
      }
    }
  }

  ghost predicate NoReload(inputs: seq<Input>) {
    forall i: nat :: Reached(inputs, i) ==> !Reloads(inputs[i])
  }

  lemma {:induction false} NoReloadLater(inputs: seq<Input>)
    requires inputs != [] && !Stops(inputs[0])
    ensures NoReload(inputs) <==> !Reloads(inputs[0]) && NoReload(inputs[1..])
  {
    forall i: nat ensures Reached(inputs[1..], i) <==> Reached(inputs, i + 1) { ReachedLater(inputs, i); }
    if NoReload(inputs) {
      assert Reached(inputs, 0);
      forall i: nat | Reached(inputs[1..], i) ensures !Reloads(inputs[1..][i]) { assert !Reloads(inputs[i + 1]); }
    } else {
      var i: nat :| Reached(inputs, i) && Reloads(inputs[i]);
      if i > 0 { assert Reached(inputs[1..], i - 1) && Reloads(inputs[1..][i - 1]); }
    }
  }

  /** In every run the policy at the end is the one found by the last successful reload, or the
      one at the start if there was none. */
  lemma {:induction false} PolicyIsLastReloaded(env: Env, s: State, inputs: seq<Input>)
    ensures NoReload(inputs) ==> Rounds(env, s, inputs).state.policy == s.policy
    ensures forall i: nat :: Reached(inputs, i) && Reloads(inputs[i]) && (Stops(inputs[i]) || NoReload(inputs[i + 1..])) ==>
              Rounds(env, s, inputs).state.policy == inputs[i].call.request.loaded.value.policy
    decreases |inputs|
  {
    if inputs != [] {
      var now := Round(env, s, inputs[0]).0;
      OnlyReloadsMovePolicy(env, s, inputs[0]);
      if !Stops(inputs[0]) {
        PolicyIsLastReloaded(env, now, inputs[1..]);
        NoReloadLater(inputs);
        forall i: nat | Reached(inputs, i) && Reloads(inputs[i]) && (Stops(inputs[i]) || NoReload(inputs[i + 1..]))
          ensures Rounds(env, s, inputs).state.policy == inputs[i].call.request.loaded.value.policy
        {
          if i > 0 {
            ReachedLater(inputs, i - 1);
            assert inputs[1..][i - 1] == inputs[i] && inputs[1..][i..] == inputs[i + 1..];
          }
        }
      } else {
        assert Reached(inputs, 0);
      }
    }
  }

  // ---- The config at the end of a run ----

  /** An editor that takes every key and value. */
  const PLAIN := Editor((config: Config, key, value) => Edit(true, config[key := value]), (config: Config, key) => Edit(true, config - {key}))

  function ValueOf(config: Config, key: string): Option<string> {
    if key in config then Some(config[key]) else None
  }

  predicate Writes(input: Input, key: string) {
    Reloads(input) || (Edits(input) && input.call.request.key == key)
  }

  /** What an input writes to a key. */
  function Written(input: Input, key: string): Option<string>
    requires Writes(input, key)
  {
    if Reloads(input) then ValueOf(input.call.request.loaded.value.config, key)
    else if input.call.request.ConfigSet? then Some(input.call.request.value)
    else None
  }

  ghost predicate NoneWrites(inputs: seq<Input>, key: string) {
    forall i: nat :: Reached(inputs, i) ==> !Writes(inputs[i], key)
  }

  lemma {:induction false} NoneWritesLater(inputs: seq<Input>, key: string)
    requires inputs != [] && !Stops(inputs[0])
    ensures NoneWrites(inputs, key) <==> !Writes(inputs[0], key) && NoneWrites(inputs[1..], key)
  {
    forall i: nat ensures Reached(inputs[1..], i) <==> Reached(inputs, i + 1) { ReachedLater(inputs, i); }
    if NoneWrites(inputs, key) {
      assert Reached(inputs, 0);
      forall i: nat | Reached(inputs[1..], i) ensures !Writes(inputs[1..][i], key) { assert !Writes(inputs[i + 1], key); }
    } else {
      var i: nat :| Reached(inputs, i) && Writes(inputs[i], key);
      if i > 0 { assert Reached(inputs[1..], i - 1) && Writes(inputs[1..][i - 1], key); }
    }
  }

  lemma {:induction false} RoundWrites(env: Env, s: State, input: Input, key: string)
    requires env.editor == PLAIN
    ensures ValueOf(Round(env, s, input).0.config, key) == if Writes(input, key) then Written(input, key) else ValueOf(s.config, key)
  {
    OnlyReloadsMovePolicy(env, s, input);
    if Edits(input) { AppRequestsDone(env, s, input); }
    if Reloads(input) { AppRequestsDone(env, s, input); }
  }

  /** With such an editor, in every run, each key has in the end what the last set, unset or reload
      that was reached wrote to it, or what it had if there was none. */
  lemma {:induction false} ConfigIsLastWritten(env: Env, s: State, inputs: seq<Input>, key: string)
    requires env.editor == PLAIN
    ensures NoneWrites(inputs, key) ==> ValueOf(Rounds(env, s, inputs).state.config, key) == ValueOf(s.config, key)
    ensures forall i: nat :: Reached(inputs, i) && Writes(inputs[i], key) && (Stops(inputs[i]) || NoneWrites(inputs[i + 1..], key)) ==>
              ValueOf(Rounds(env, s, inputs).state.config, key) == Written(inputs[i], key)
    decreases |inputs|
  {
    if inputs != [] {
      var now := Round(env, s, inputs[0]).0;
      RoundWrites(env, s, inputs[0], key);
      if !Stops(inputs[0]) {
        ConfigIsLastWritten(env, now, inputs[1..], key);
        NoneWritesLater(inputs, key);
        forall i: nat | Reached(inputs, i) && Writes(inputs[i], key) && (Stops(inputs[i]) || NoneWrites(inputs[i + 1..], key))
          ensures ValueOf(Rounds(env, s, inputs).state.config, key) == Written(inputs[i], key)
        {
          if i > 0 {
            ReachedLater(inputs, i - 1);
            assert inputs[1..][i - 1] == inputs[i] && inputs[1..][i..] == inputs[i + 1..];
          }
        }
      } else {
        assert Reached(inputs, 0);
      }
    }
  }

  /** In every run an answer recorded before or during it stands. */
  lemma {:induction false} RunKeepsAnswers(env: Env, s: State, inputs: seq<Input>)
    ensures var end := Rounds(env, s, inputs).state;
            forall requestId :: requestId in s.answers ==>
              requestId in end.answers && end.answers[requestId] == s.answers[requestId]
    decreases |inputs|
  {
    if inputs != [] {
      var now := Round(env, s, inputs[0]).0;
      forall requestId | requestId in s.answers
        ensures requestId in now.answers && now.answers[requestId] == s.answers[requestId]
      {
        AnswersStay(env, s, inputs[0], requestId);
      }
      if !Stops(inputs[0]) { RunKeepsAnswers(env, now, inputs[1..]); }
    }
  }

  // ---- Notifications ----

  /** A request without an id, which section 4.1 of JSON-RPC 2.0 says not to answer. */
  predicate Notification(input: Input) {
    input.Request? && !input.version.Wrong? && input.id.None?
  }

  predicate HasReply(lines: seq<Line>) {
    exists k :: 0 <= k < |lines| && IsReply(lines[k])
  }

  predicate AnswersNotification(inputs: seq<Input>, parts: seq<seq<Line>>) {
    exists i :: 0 <= i < |parts| && i < |inputs| && Notification(inputs[i]) && HasReply(parts[i])
  }

  /** Exactly the runs that get to no notification conform: every other one answers it. */
  lemma {:induction false} NotificationsIff(env: Env, s: State, inputs: seq<Input>)
    requires Coherent(s)
    ensures AnswersNotification(inputs, Rounds(env, s, inputs).parts) <==> exists i: nat :: Reached(inputs, i) && Notification(inputs[i])
  {
    var parts := Rounds(env, s, inputs).parts;
    TranscriptOfRun(env, s, inputs);
    if AnswersNotification(inputs, parts) {
      var i :| 0 <= i < |parts| && i < |inputs| && Notification(inputs[i]) && HasReply(parts[i]);
      assert Reached(inputs, i);
    }
    forall i: nat | Reached(inputs, i) && Notification(inputs[i]) ensures AnswersNotification(inputs, parts) {
      assert i < |parts|;
      ResponseReplied(inputs[i], parts[i]);
    }
  }

  lemma {:induction false} ResponseReplied(input: Input, lines: seq<Line>)
    requires Response(input, lines) && !Silent(input)
    ensures HasReply(lines)
  {
    AnswersWithId(input, lines[|lines| - 1]);
  }

  /** For instance a health check without an id. */
  lemma {:induction false} NotificationAnswered(env: Env, s: State) returns (inputs: seq<Input>)
    requires Coherent(s)
    ensures AnswersNotification(inputs, Rounds(env, s, inputs).parts)
    ensures Concat(Rounds(env, s, inputs).parts) == [Result(Null, true)]
  {
    inputs := [Request(None, Two, Fixed)];
    assert Reached(inputs, 0) && Notification(inputs[0]);
    NotificationsIff(env, s, inputs);
    assert Round(env, s, inputs[0]).1 == [] + [Result(Null, true)] == [Result(Null, true)];
    assert inputs[1..] == [] && Rounds(env, s, inputs).parts == [[Result(Null, true)]];
    ConcatOne([Result(Null, true)]);
  }

  lemma {:induction false} ConcatOne(lines: seq<Line>)
    ensures Concat([lines]) == lines
  {
    assert [lines][1..] == [] && lines + [] == lines;
  }

  lemma {:induction false} TranscriptOfRun(env: Env, s: State, inputs: seq<Input>)
    requires Coherent(s)
    ensures var run := Rounds(env, s, inputs); Coherent(run.state) && Transcript(inputs, run.parts)
    decreases |inputs|
  {
    if inputs != [] {
      var now := Round(env, s, inputs[0]);
      RoundResponds(env, s, inputs[0]);
      RoundKeepsCoherent(env, s, inputs[0]);
      if !Stops(inputs[0]) {
        TranscriptOfRun(env, now.0, inputs[1..]);
        TranscriptCons(inputs, now.1, Rounds(env, now.0, inputs[1..]).parts);
      }
    }
  }

  lemma {:induction false} TranscriptCons(inputs: seq<Input>, first: seq<Line>, rest: seq<seq<Line>>)
    requires inputs != [] && !Stops(inputs[0]) && Response(inputs[0], first) && Transcript(inputs[1..], rest)
    ensures Transcript(inputs, [first] + rest)
  {
    var parts := [first] + rest;
    forall i | 0 <= i < |parts| ensures Response(inputs[i], parts[i]) {
      if i > 0 { assert Response(inputs[1..][i - 1], rest[i - 1]); }
    }
    forall i | 0 <= i < |parts| - 1 ensures !Stops(inputs[i]) {
      if i > 0 { assert !Stops(inputs[1..][i - 1]); }
    }
    if |rest| < |inputs| - 1 { assert Stops(inputs[1..][|rest| - 1]); }
  }

  // ---- The server, in place ----

  class AppState {
    const env: Env
    var config: Config
    var runtimeConfig: Config
    var policy: string
    var disk: Disk
    var bridge: RuntimeBridge?
    var answers: map<string, string>
    ghost var childConfig: Config
    ghost var updates: nat
    ghost var spawnedAt: nat
    ghost var edited: bool

    ghost function View(): State
      reads this, bridge
    {
      State(config, runtimeConfig, policy, disk, if bridge == null then None else Some(bridge.View()), childConfig, answers, updates, spawnedAt, edited)
    }

    constructor (env: Env, disk: Disk)
      ensures this.env == env && View() == Initial(disk) && Coherent(View())
    {
      this.env, this.disk := env, disk;
      config, runtimeConfig, policy := disk.config, disk.config, disk.policy;
      bridge, answers := null, map[];
      childConfig, updates, spawnedAt, edited := disk.config, 0, 0, false;
    }

    /** apply_config_update: disk if asked, shared config, runtime, bridge, in that order. */
    method ApplyConfigUpdate(snapshot: Config, newPolicy: Option<string>, persist: bool, saved: bool)
      modifies this
      ensures View() == Updated(env, old(View()), snapshot, newPolicy, persist, saved) && bridge == null
    {
      if persist && env.persistent && saved {
        disk := disk.(config := snapshot);
      }
      config := snapshot;
      runtimeConfig := snapshot;
      if newPolicy.Some? {
        policy := newPolicy.value;
      }
      bridge := null;
      updates, edited := updates + 1, false;
    }

    /** process_app_request. */
    method ProcessAppRequest(request: AppRequest) returns (ok: bool)
      modifies this
      ensures Applied(View(), ok) == AppliedTo(env, old(View()), request)
      ensures bridge == old(bridge) || bridge == null
    {
      match request {
        case ConfigSet(key, value, saved) =>
          var edit := env.editor.assign(config, key, value);
          config := edit.config;
          ApplyConfigUpdate(edit.config, None, true, saved);
          ok := edit.ok;
        case ConfigUnset(key, saved) =>
          var edit := env.editor.erase(config, key);
          config := edit.config;
          ApplyConfigUpdate(edit.config, None, true, saved);
          ok := edit.ok;
        case ConfigReload(loaded) =>
          if loaded.None? {
            return false;
          }
          disk := loaded.value;
          ApplyConfigUpdate(loaded.value.config, Some(loaded.value.policy), false, false);
          ok := true;
        case SubmitUserInput(requestId, answer) =>
          if requestId in answers {
            return false;
          }
          answers := answers[requestId := answer];
          ok := true;
        case OtherApp(answered) =>
          ok := answered;
      }
    }

    /** acquire_stdio_bridge, with nobody else at the slot. */
    method AcquireBridge(spawned: bool) returns (acquired: RuntimeBridge?)
      modifies this
      ensures View() == Acquired(old(View()), spawned) && acquired == bridge
      ensures bridge == old(bridge) || fresh(bridge)
    {
      if bridge != null {
        return bridge;
      }
      if !spawned {
        return null;
      }
      bridge := new RuntimeBridge();
      childConfig := disk.config;
      spawnedAt := updates;
      return bridge;
    }

    /** handle_stdio_thread_message: the group, if any, is on the output before the answer. */
    method HandleThreadMessage(call: Call, writer: Writer) returns (accepted: bool)
      requires call.Message?
      modifies this, writer, bridge
      ensures var talked := Talk(env, old(View()), call);
              View() == talked.state && accepted == talked.accepted && writer.lines == old(writer.lines) + talked.lines
      ensures bridge == old(bridge) || fresh(bridge)
    {
      var acquired := AcquireBridge(call.spawned);
      if acquired == null {
        return false;
      }
      var thread := acquired.EnsureRuntimeThread(call.thread, call.created);
      if thread.None? {
        return false;
      }
      var answer := acquired.MessageThread(thread.value, call.post, call.connection, env.codec, writer);
      accepted := answer.Accepted?;
    }

    /** The events handle_prompt emits before anything in it can fail; the hook sink of build_state
        prints each on stdout. */
    method AnnounceModel(responseId: string, writer: Writer)
      modifies writer
      ensures writer.lines == old(writer.lines) + GroupOf(responseId, ["model-selected"])
    {
      ghost var before := writer.lines;
      writer.Emit(ResponseStart(responseId));
      writer.Emit(ResponseDelta(responseId, "model-selected"));
      writer.Emit(ResponseEnd(responseId));
      OneDelta(responseId, "model-selected");
      Grouped(before, ResponseStart(responseId), [ResponseDelta(responseId, "model-selected")], ResponseEnd(responseId));
    }

    /** dispatch_stdio_request_with_writer, and the reply its outcome is turned into. */
    method Dispatch(id: Id, call: Call, writer: Writer) returns (reply: Line)
      modifies this, writer, bridge
      ensures var served := Dispatched(env, old(View()), id, call);
              View() == served.state && reply == served.reply && writer.lines == old(writer.lines) + served.streamed
      ensures bridge == old(bridge) || bridge == null || fresh(bridge)
    {
      match call {
        case Fixed => reply := Result(id, true);
        case Runtime(ok) => reply := if ok then Result(id, true) else Error(id, INTERNAL_ERROR);
        case Prompt(responseId, ok) =>
          AnnounceModel(responseId, writer);
          reply := if ok then Result(id, true) else Error(id, INTERNAL_ERROR);
        case App(request) =>
          var ok := ProcessAppRequest(request);
          reply := Result(id, ok);
        case Message(_, _, _, _, _) =>
          var accepted := HandleThreadMessage(call, writer);
          reply := if accepted then Result(id, true) else Error(id, INTERNAL_ERROR);
        case BadParams => reply := Error(id, INVALID_PARAMS);
        case Unknown => reply := Error(id, METHOD_NOT_FOUND);
        case Shutdown =>
          bridge := null;
          reply := Result(id, true);
      }
    }

    /** One round of the run_stdio loop. */
    method Handle(input: Input, writer: Writer) returns (stop: bool)
      modifies this, writer, bridge
      ensures var round := Round(env, old(View()), input);
              View() == round.0 && writer.lines == old(writer.lines) + round.1 && stop == Stops(input)
      ensures bridge == old(bridge) || bridge == null || fresh(bridge)
    {
      match input {
        case Blank =>
        case DiskEdited(found) =>
          disk, edited := found, true;
        case Unparsable =>
          writer.Emit(Error(Null, PARSE_ERROR));
        case Request(id, version, call) =>
          if version.Wrong? {
            writer.Emit(Error(ReplyId(id), INVALID_REQUEST));
          } else {
            var reply := Dispatch(ReplyId(id), call, writer);
            writer.Emit(reply);
          }
      }
      stop := Stops(input);
    }

    /** run_stdio. */
    method RunStdio(inputs: seq<Input>, writer: Writer)
      modifies this, writer, bridge
      ensures var run := Rounds(env, old(View()), inputs);
              View() == run.state && writer.lines == old(writer.lines) + Concat(run.parts)
    {
      assert inputs[0..] == inputs;
      ghost var all := Rounds(env, View(), inputs);
      for i := 0 to |inputs|
        invariant bridge == old(bridge) || bridge == null || fresh(bridge)
        invariant var left := Rounds(env, View(), inputs[i..]);
                  left.state == all.state && writer.lines + Concat(left.parts) == old(writer.lines) + Concat(all.parts)
      {
        RoundsStep(env, View(), inputs, i);
        ghost var before, now := writer.lines, Round(env, View(), inputs[i]);
        var stop := Handle(inputs[i], writer);
        if stop {
          return;
        }
        LinesAssociate(before, now.1, Concat(Rounds(env, View(), inputs[i + 1..]).parts));
      }
    }
  }

  lemma {:induction false} RoundsStep(env: Env, s: State, inputs: seq<Input>, i: nat)
    requires i < |inputs|
    ensures var now, all := Round(env, s, inputs[i]), Rounds(env, s, inputs[i..]);
            if Stops(inputs[i]) then all.state == now.0 && Concat(all.parts) == now.1
            else
              var later := Rounds(env, now.0, inputs[i + 1..]);
              all.state == later.state && Concat(all.parts) == now.1 + Concat(later.parts)
  {
    var now := Round(env, s, inputs[i]);
    assert inputs[i..][0] == inputs[i] && inputs[i..][1..] == inputs[i + 1..];
    if Stops(inputs[i]) {
      ConcatOne(now.1);
    } else {
      var later := Rounds(env, now.0, inputs[i + 1..]).parts;
      assert ([now.1] + later)[1..] == later;
    }
  }

  lemma {:induction false} LinesAssociate(a: seq<Line>, b: seq<Line>, c: seq<Line>)
    ensures (a + b) + c == a + (b + c)
  {
  }
}
