/** Sessions that happen: a client's first message, from the runtime's log to stdout, for any log;
    and one log with which it does. The assumptions of the theorems on sessions can be met. */
module SessionExample {
  import opened Options
  import opened Text
  import opened Output
  import opened SseFraming
  import opened SseMessages
  import opened TurnStream
  import opened RuntimeBridges
  import opened AppServer
  import opened UnaryCodec
  import Link = Sessions
  import Runs = TurnRuns

  // ---- A first message ----

  /** The runtime once it has created a thread, and a turn of which everything is logged while the
      reader listens. */
  function Opened(thread: string): Runs.World {
    Runs.World(map[thread := 0], map[thread := []])
  }

  function Step(thread: string, turn: string, log: seq<Runs.Entry>, items: seq<Item>, chunks: seq<string>): (r: Runs.Step)
    ensures r.Turned?
  {
    Runs.Turned(thread, turn, [], [], log, items, chunks)
  }

  predicate Readable(log: seq<Runs.Entry>, items: seq<Item>, chunks: seq<string>, codec: Codec) {
    Runs.GoodLog(log) && Runs.Carries(items, log, codec) && Flatten(chunks) == PrintAll(items) && WithinLimit(chunks, "")
  }

  lemma {:induction false} TurnIsPossible(thread: string, turn: string, log: seq<Runs.Entry>, items: seq<Item>, chunks: seq<string>, codec: Codec)
    requires Readable(log, items, chunks, codec)
    ensures var world, step := Opened(thread), Step(thread, turn, log, items, chunks);
            && Runs.Inv(world) && Runs.Possible(world, step, codec)
            && Runs.LogAfter(world, step) == log && Runs.Sent(world, step) == log && Link.Delivered(world, step) == log
  {
    var world, step := Opened(thread), Step(thread, turn, log, items, chunks);
    assert [] + ([] + log) == log && [] + log == log;
    assert Runs.Beyond([], 0) == [];
  }

  lemma {:induction false} TurnFinishes(thread: string, turn: string, log: seq<Runs.Entry>, items: seq<Item>, chunks: seq<string>, codec: Codec)
    requires Runs.Faithful(codec) && Readable(log, items, chunks, codec) && Runs.Ends(log, turn)
    ensures Runs.TurnOf(Opened(thread), Step(thread, turn, log, items, chunks), codec).progress.Done?
  {
    Runs.TopBounds(log);
    Runs.CompletionArrives(items, log, chunks, turn, codec, 0, Runs.Top(log));
  }

  /** The first message of a server beside an empty runtime, on a thread the runtime creates for it,
      delivers all that the turn owes, and is accepted exactly if the turn ended well. */
  lemma {:induction false} FirstMessage(env: Env, disk: Disk, id: Id, call: Call, log: seq<Runs.Entry>, items: seq<Item>)
    requires Runs.Faithful(env.codec) && call.Message? && call.spawned && call.created.Some?
    requires call.post.Posted? && call.connection.Open? && Readable(log, items, call.connection.chunks, env.codec)
    requires Runs.Ends(log, call.post.turn)
    ensures var served := Dispatched(env, Initial(disk), id, call);
            && served.streamed == GroupOf(call.created.value + ":" + call.post.turn, Runs.Owed(log, call.post.turn))
            && (served.reply == Result(id, true) <==> EndedWell(Runs.FirstCompletion(log, call.post.turn).payload))
  {
    var thread, turn, chunks := call.created.value, call.post.turn, call.connection.chunks;
    TurnIsPossible(thread, turn, log, items, chunks, env.codec);
    TurnFinishes(thread, turn, log, items, chunks, env.codec);
    Link.MessageDeliversOwed(env, Initial(disk), id, call, Opened(thread), Step(thread, turn, log, items, chunks));
  }

  /** And it is a session: what the theorems on sessions assume of it holds. */
  lemma {:induction false} FirstMessageIsSession(env: Env, disk: Disk, input: Input, log: seq<Runs.Entry>, items: seq<Item>)
    requires Link.IsMessage(input) && input.call.spawned && input.call.created.Some? && input.call.post.Posted?
    requires input.call.connection.Open? && Readable(log, items, input.call.connection.chunks, env.codec)
    ensures var call := input.call;
            var step := Step(call.created.value, call.post.turn, log, items, call.connection.chunks);
            var session := Link.Session(Initial(disk), Runs.World(map[], map[]));
            Link.Linked(session) && Link.PossibleSession(env, session, [Link.Serves(input, step)])
  {
    var call := input.call;
    var step := Step(call.created.value, call.post.turn, log, items, call.connection.chunks);
    var session := Link.Session(Initial(disk), Runs.World(map[], map[]));
    FirstMoveIsPossible(env, disk, input, log, items);
    Link.StartIsLinked(disk, map[]);
    assert [Link.Serves(input, step)][1..] == [];
  }

  lemma {:induction false} FirstMoveIsPossible(env: Env, disk: Disk, input: Input, log: seq<Runs.Entry>, items: seq<Item>)
    requires Link.IsMessage(input) && input.call.spawned && input.call.created.Some? && input.call.post.Posted?
    requires input.call.connection.Open? && Readable(log, items, input.call.connection.chunks, env.codec)
    ensures var call := input.call;
            var step := Step(call.created.value, call.post.turn, log, items, call.connection.chunks);
            Link.PossibleMove(env, Link.Session(Initial(disk), Runs.World(map[], map[])), Link.Serves(input, step))
  {
    var call := input.call;
    TurnIsPossible(call.created.value, call.post.turn, log, items, call.connection.chunks, env.codec);
    FreshWorld(env, disk, call);
  }

  lemma {:induction false} FreshWorld(env: Env, disk: Disk, call: Call)
    requires call.Message? && call.spawned && call.created.Some?
    ensures var session := Link.Session(Initial(disk), Runs.World(map[], map[]));
            && Link.ThreadFor(session, call) == call.created
            && Runs.Possible(session.world, Runs.Opened(call.created.value), env.codec)
            && Link.WorldFor(env, session, call) == Opened(call.created.value)
  {
  }

  // ---- One log ----

  predicate Low(numbers: seq<nat>) {
    forall i :: 0 <= i < |numbers| ==> numbers[i] <= 200
  }

  lemma {:induction false} LowBound(numbers: seq<nat>)
    requires Low(numbers)
    ensures |Write(numbers)| <= |numbers| * 201
  {
    if numbers != [] {
      assert forall i :: 0 <= i < |numbers| - 1 ==> numbers[1..][i] == numbers[i + 1];
      LowBound(numbers[1..]);
    }
  }

  predicate Modest(field: Option<string>) {
    field.Some? ==> |field.value| < 100 && forall i :: 0 <= i < |field.value| ==> field.value[i] as int < 200
  }

  lemma {:induction false} LowString(field: Option<string>)
    requires Modest(field)
    ensures |PutString(field)| <= 100 && Low(PutString(field))
  {
  }

  lemma {:induction false} LowJoin(front: seq<nat>, back: seq<nat>)
    requires Low(front) && Low(back)
    ensures Low(front + back)
  {
  }

  lemma {:induction false} LowEnvelope(e: Envelope)
    requires e.seqNo.Some? && e.seqNo.value < 100 && Modest(e.turnId)
    requires Modest(e.payload.kind) && Modest(e.payload.delta) && Modest(e.payload.status) && Modest(e.payload.error)
    ensures |Write(Put(e))| <= 200000
  {
    var kind, delta, status, error := PutString(e.payload.kind), PutString(e.payload.delta), PutString(e.payload.status), PutString(e.payload.error);
    LowString(e.turnId);
    LowString(e.payload.kind);
    LowString(e.payload.delta);
    LowString(e.payload.status);
    LowString(e.payload.error);
    LowJoin(status, error);
    LowJoin(delta, status + error);
    LowJoin(kind, delta + (status + error));
    LowJoin(PutString(e.turnId), PutPayload(e.payload));
    LowJoin([e.seqNo.value + 1], PutString(e.turnId) + PutPayload(e.payload));
    LowBound(Put(e));
  }

  lemma {:induction false} ModestEntries()
    ensures |Write(Put(Runs.EnvelopeOf(Runs.LOST)))| <= 200000 && |Write(Put(Runs.EnvelopeOf(Runs.END)))| <= 200000
  {
    assert Modest(Some("t")) && Modest(Some("agent_message")) && Modest(Some("hi"));
    LowEnvelope(Runs.EnvelopeOf(Runs.LOST));
    LowEnvelope(Runs.EnvelopeOf(Runs.END));
  }

  function ItemOf(entry: Runs.Entry): Item {
    Event(entry.event, Encode(Runs.EnvelopeOf(entry)))
  }

  lemma {:induction false} TwoItems(one: Item, other: Item)
    ensures PrintAll([one, other]) == Print(one) + Print(other) && Flatten([PrintAll([one, other])]) == PrintAll([one, other])
  {
    var items := [one, other];
    assert items[1..] == [other] && [other][1..] == [] && PrintAll([]) == "" && Print(other) + "" == Print(other);
    assert [PrintAll(items)][1..] == [] && Flatten([]) == "" && PrintAll(items) + "" == PrintAll(items);
  }

  lemma {:induction false} TwoCarried(one: Runs.Entry, other: Runs.Entry)
    ensures Runs.Carries([ItemOf(one), ItemOf(other)], [one, other], CODEC)
  {
    var items, log := [ItemOf(one), ItemOf(other)], [one, other];
    assert items[1..] == [ItemOf(other)] && log[1..] == [other] && items[1..][1..] == [] && log[1..][1..] == [];
  }

  lemma {:induction false} TwoReadable(one: Runs.Entry, other: Runs.Entry)
    requires Runs.GoodLog([one, other])
    requires |one.event| < 100 && |other.event| < 100
    requires |Write(Put(Runs.EnvelopeOf(one)))| <= 200000 && |Write(Put(Runs.EnvelopeOf(other)))| <= 200000
    ensures var items := [ItemOf(one), ItemOf(other)]; Readable([one, other], items, [PrintAll(items)], CODEC)
  {
    TwoItems(ItemOf(one), ItemOf(other));
    TwoCarried(one, other);
    PrintedLength(one.event, Write(Put(Runs.EnvelopeOf(one))));
    PrintedLength(other.event, Write(Put(Runs.EnvelopeOf(other))));
    ShortStreamsStayWithinLimit([PrintAll([ItemOf(one), ItemOf(other)])], "");
  }

  lemma {:induction false} LogEndsWell()
    ensures var log := [Runs.LOST, Runs.END];
            && Runs.GoodLog(log) && Runs.Owed(log, "t") == ["hi"]
            && Runs.Ends(log, "t") && EndedWell(Runs.FirstCompletion(log, "t").payload)
  {
    var log := [Runs.LOST, Runs.END];
    Runs.ExampleLog();
    Runs.OwedOfExample();
    assert Runs.Completes(log[1], "t") && !Runs.Completes(log[0], "t") && log[1..] == [Runs.END];
    Runs.EndsLater(log, "t");
    assert Runs.FirstCompletion(log, "t") == Runs.END;
  }

  /** A message that is answered with one group that says hi, and accepted. */
  lemma {:induction false} SaysHi(env: Env, disk: Disk) returns (call: Call)
    requires env.codec == CODEC
    ensures call.Message?
    ensures var served := Dispatched(env, Initial(disk), Given("1"), call);
            served.streamed == GroupOf("r" + ":" + "t", ["hi"]) && served.reply == Result(Given("1"), true)
  {
    var items := [ItemOf(Runs.LOST), ItemOf(Runs.END)];
    call := Call.Message("s", true, Some("r"), Posted("t"), Open([PrintAll(items)]));
    CodecIsFaithful();
    ModestEntries();
    LogEndsWell();
    TwoReadable(Runs.LOST, Runs.END);
    FirstMessage(env, disk, Given("1"), call, [Runs.LOST, Runs.END], items);
  }
}
