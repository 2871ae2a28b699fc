/** The bridge object of crates/app-server/src/lib.rs: which runtime thread stands behind each
    stdio thread, and how far each runtime thread's events have been read. */
module RuntimeBridges {
  import opened Options
  import opened Output
  import opened TurnStream

  /** What the runtime API makes of the request that starts a turn. */
  datatype Post = PostFailed | Posted(turn: string)

  /** The event stream: refused, or the chunks that arrive before it ends or fails. */
  datatype Connection = Refused | Open(chunks: seq<string>)

  datatype Answer = Accepted(turn: string) | TurnError(status: Status, text: string) | TransportError

  function Since(lastSeq: map<string, nat>, thread: string): nat {
    if thread in lastSeq then lastSeq[thread] else 0
  }

  function Streamed(connection: Connection, turn: string, codec: Codec, since: nat): Turn {
    match connection
    case Refused => Turn(Broken, [])
    case Open(chunks) => Stream(chunks, "", turn, codec, since)
  }

  function AnswerOf(turn: string, progress: Progress): Answer {
    match progress
    case Done(_, Completed, _) => Accepted(turn)
    case Done(_, status, error) =>
      var fallback := if status.Failed? then "turn failed" else if status.Interrupted? then "turn interrupted" else "turn canceled";
      TurnError(status, if error.Some? then error.value else fallback)
    case _ => TransportError
  }

  function Advance(lastSeq: map<string, nat>, thread: string, progress: Progress): map<string, nat> {
    if progress.Done? then lastSeq[thread := progress.last] else lastSeq
  }

  /** How a completion is answered: accepted if the turn ended well, else with the error it gives,
      or the words for how it ended. */
  lemma {:induction false} AnswerSpelled(turn: string, payload: Payload, last: nat)
    ensures var answer := AnswerOf(turn, Done(last, TerminalStatus(payload), payload.error));
            && (answer == Accepted(turn) <==> EndedWell(payload))
            && (payload.error.Some? && !EndedWell(payload) ==> answer.TurnError? && answer.text == payload.error.value)
            && (payload.error.None? ==>
                  && (Says(payload, "failed") ==> answer == TurnError(Failed, "turn failed"))
                  && (Says(payload, "interrupted") ==> answer == TurnError(Interrupted, "turn interrupted"))
                  && (Says(payload, "canceled") || Says(payload, "cancelled") ==> answer == TurnError(Canceled, "turn canceled")))
  {
    VerdictIff(payload, TerminalStatus(payload));
    forall status ensures Verdict(payload, status) <==> status == TerminalStatus(payload) { VerdictIff(payload, status); }
  }

  /** The lines of one turn: nothing comes between a start and its end but that turn's deltas. */
  function GroupOf(responseId: string, deltas: seq<string>): seq<Line> {
    [ResponseStart(responseId)] + DeltaLines(responseId, deltas) + [ResponseEnd(responseId)]
  }

  datatype Bridge = Bridge(threads: map<string, string>, lastSeq: map<string, nat>)

  datatype Exchange = Exchange(bridge: Bridge, answer: Answer, lines: seq<Line>)

  /** One message on a runtime thread. */
  function Exchanged(bridge: Bridge, thread: string, post: Post, connection: Connection, codec: Codec): Exchange {
    match post
    case PostFailed => Exchange(bridge, TransportError, [])
    case Posted(turn) =>
      var turned := Streamed(connection, turn, codec, Since(bridge.lastSeq, thread));
      Exchange(bridge.(lastSeq := Advance(bridge.lastSeq, thread, turned.progress)), AnswerOf(turn, turned.progress),
               GroupOf(thread + ":" + turn, turned.deltas))
  }

  function ThreadOf(bridge: Bridge, stdioThread: string, created: Option<string>): Option<string> {
    if stdioThread in bridge.threads then Some(bridge.threads[stdioThread]) else created
  }

  /** A new stdio thread goes to the runtime thread created for it, whose position is kept. */
  function Connected(bridge: Bridge, stdioThread: string, created: Option<string>): Bridge {
    if stdioThread in bridge.threads || created.None? then bridge
    else Bridge(bridge.threads[stdioThread := created.value],
                bridge.lastSeq[created.value := Since(bridge.lastSeq, created.value)])
  }

  class RuntimeBridge {
    var threads: map<string, string>
    var lastSeq: map<string, nat>

    function View(): Bridge
      reads this
    {
      Bridge(threads, lastSeq)
    }

    constructor ()
      ensures View() == Bridge(map[], map[])
    {
      threads, lastSeq := map[], map[];
    }

    /** ensure_runtime_thread: a known stdio thread keeps its runtime thread and asks for none. */
    method EnsureRuntimeThread(stdioThread: string, created: Option<string>) returns (thread: Option<string>)
      modifies this
      ensures thread == ThreadOf(old(View()), stdioThread, created)
      ensures View() == Connected(old(View()), stdioThread, created)
    {
      if stdioThread in threads {
        return Some(threads[stdioThread]);
      }
      if created.None? {
        return None;
      }
      if created.value !in lastSeq {
        lastSeq := lastSeq[created.value := 0];
      }
      assert lastSeq == old(lastSeq)[created.value := Since(old(lastSeq), created.value)];
      threads := threads[stdioThread := created.value];
      return created;
    }

    /** message_thread: the group of output lines is opened only once the turn exists, and is
        closed whatever the stream does; the saved position moves only when the turn ended. */
    method MessageThread(thread: string, post: Post, connection: Connection, codec: Codec, writer: Writer)
      returns (answer: Answer)
      modifies this, writer
      ensures var exchange := Exchanged(old(View()), thread, post, connection, codec);
              && answer == exchange.answer && View() == exchange.bridge
              && writer.lines == old(writer.lines) + exchange.lines
    {
      if post.PostFailed? {
        return TransportError;
      }
      var responseId := thread + ":" + post.turn;
      writer.Emit(ResponseStart(responseId));
      ghost var started := writer.lines;
      ghost var deltas := [];
      var since := Since(lastSeq, thread);
      var progress := Broken;
      match connection {
        case Refused =>
          assert Wrote(started, started, responseId, []);
        case Open(chunks) =>
          progress, deltas := StreamTurnEvents(chunks, post.turn, responseId, codec, since, writer);
      }
      writer.Emit(ResponseEnd(responseId));
      Grouped(old(writer.lines), ResponseStart(responseId), DeltaLines(responseId, deltas), ResponseEnd(responseId));
      if !progress.Done? {
        return TransportError;
      }
      lastSeq := lastSeq[thread := progress.last];
      answer := AnswerOf(post.turn, progress);
    }
  }

  lemma {:induction false} Grouped(before: seq<Line>, start: Line, middle: seq<Line>, end: Line)
    ensures ((before + [start]) + middle) + [end] == before + ([start] + middle + [end])
  {
  }

  ghost predicate NoneMovedBack(before: map<string, nat>, now: map<string, nat>) {
    forall thread :: thread in before ==> thread in now && before[thread] <= now[thread]
  }

  lemma {:induction false} PositionsMoveOn(before: map<string, nat>, between: map<string, nat>, now: map<string, nat>)
    requires NoneMovedBack(before, between) && NoneMovedBack(between, now)
    ensures NoneMovedBack(before, now)
  {
    forall thread | thread in before ensures thread in now && before[thread] <= now[thread] {
      assert thread in between && before[thread] <= between[thread] <= now[thread];
    }
  }

  /** Whatever comes over the wire, no message moves a saved position back; one whose turn does
      not end moves none. */
  lemma {:induction false} ExchangeKeepsPositions(bridge: Bridge, thread: string, post: Post, connection: Connection, codec: Codec)
    ensures var exchange := Exchanged(bridge, thread, post, connection, codec);
            && NoneMovedBack(bridge.lastSeq, exchange.bridge.lastSeq)
            && (exchange.answer == TransportError ==> exchange.bridge == bridge)
  {
    if post.Posted? && connection.Open? {
      StreamMovesOn(connection.chunks, "", post.turn, codec, Since(bridge.lastSeq, thread));
    }
  }
}
