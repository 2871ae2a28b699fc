/** One turn on a runtime thread (RuntimeBridge in crates/app-server/src/lib.rs): the request is
    posted, the thread's event stream is read from the saved sequence number on, and the turn's
    own text deltas are passed on until its completion arrives. */
module TurnStream {
  import opened Options
  import opened Output
  import opened Text
  import opened SseFraming
  import opened SseMessages

  // ---- Envelopes, as decoded from JSON ----

  datatype Payload = Payload(kind: Option<string>, delta: Option<string>, status: Option<string>, error: Option<string>)

  datatype Envelope = Envelope(seqNo: Option<nat>, turnId: Option<string>, payload: Payload)

  /** The JSON codec: encoding may spread over several data lines, decoding may fail. */
  datatype Codec = Codec(encode: Envelope -> seq<string>, decode: string -> Option<Envelope>)

  datatype Status = Completed | Failed | Interrupted | Canceled

  function TerminalStatus(payload: Payload): Status {
    var status := Lower(if payload.status.Some? then payload.status.value else "completed");
    if status == "failed" then Failed
    else if status == "interrupted" then Interrupted
    else if status == "canceled" || status == "cancelled" then Canceled
    else Completed
  }

  predicate Says(payload: Payload, word: string) {
    payload.status.Some? && SameLetters(payload.status.value, word)
  }

  /** A turn ended well unless its status is one of four words, in any ASCII case. */
  predicate EndedWell(payload: Payload) {
    !Says(payload, "failed") && !Says(payload, "interrupted") && !Says(payload, "canceled") && !Says(payload, "cancelled")
  }

  /** What each word comes to. */
  predicate Verdict(payload: Payload, status: Status) {
    match status
    case Completed => EndedWell(payload)
    case Failed => Says(payload, "failed")
    case Interrupted => Says(payload, "interrupted")
    case Canceled => Says(payload, "canceled") || Says(payload, "cancelled")
  }

  lemma {:induction false} StatusWords()
    ensures Lower("failed") == "failed" && Lower("interrupted") == "interrupted"
    ensures Lower("canceled") == "canceled" && Lower("cancelled") == "cancelled"
    ensures Lower("completed") == "completed"
  {
  }

  lemma {:induction false} SaysLower(payload: Payload, word: string)
    requires Lower(word) == word
    ensures Says(payload, word) <==> payload.status.Some? && Lower(payload.status.value) == word
  {
    if payload.status.Some? { LowerTells(payload.status.value, word); }
  }

  /** turn_terminal_status gives the one verdict that fits. */
  lemma {:induction false} VerdictIff(payload: Payload, status: Status)
    ensures Verdict(payload, status) <==> status == TerminalStatus(payload)
  {
    StatusWords();
    SaysLower(payload, "failed");
    SaysLower(payload, "interrupted");
    SaysLower(payload, "canceled");
    SaysLower(payload, "cancelled");
  }

  // ---- The reading loop ----

  datatype Progress = Reading(last: nat) | Done(last: nat, status: Status, error: Option<string>) | Broken

  datatype Turn = Turn(progress: Progress, deltas: seq<string>)

  function Max(a: nat, b: nat): nat {
    if a < b then b else a
  }

  predicate IsDelta(event: string, payload: Payload) {
    && event == "item.delta" && payload.kind == Some("agent_message")
    && payload.delta.Some? && payload.delta.value != ""
  }

  /** The effect of one message on the loop. */
  function Take(message: Message, turn: string, codec: Codec, last: nat): (r: Turn)
    ensures |r.deltas| <= 1 && (r.progress.Reading? ==> last <= r.progress.last)
  {
    match codec.decode(message.data)
    case None => Turn(Broken, [])
    case Some(envelope) =>
      var seen := if envelope.seqNo.Some? then Max(last, envelope.seqNo.value) else last;
      if envelope.turnId != Some(turn) then Turn(Reading(seen), [])
      else if message.event == "turn.completed" then
        Turn(Done(seen, TerminalStatus(envelope.payload), envelope.payload.error), [])
      else if IsDelta(message.event, envelope.payload) then Turn(Reading(seen), [envelope.payload.delta.value])
      else Turn(Reading(seen), [])
  }

  function Consume(messages: seq<Message>, turn: string, codec: Codec, last: nat): Turn
    decreases |messages|, 0
  {
    if messages == [] then Turn(Reading(last), [])
    else Then(Take(messages[0], turn, codec, last), messages[1..], turn, codec)
  }

  function Then(now: Turn, messages: seq<Message>, turn: string, codec: Codec): Turn
    decreases |messages|, 1
  {
    if now.progress.Reading? then
      var later := Consume(messages, turn, codec, now.progress.last);
      Turn(later.progress, now.deltas + later.deltas)
    else now
  }

  /** The whole loop over the chunks that arrive before the connection ends or fails. */
  function Stream(chunks: seq<string>, buffer: string, turn: string, codec: Codec, last: nat): Turn
    decreases |chunks|, 0
  {
    if chunks == [] || |buffer + chunks[0]| > MAX_FRAME then Turn(Broken, [])
    else Resume(Drain(buffer + chunks[0]), chunks[1..], turn, codec, last)
  }

  function Resume(drained: Drained, chunks: seq<string>, turn: string, codec: Codec, last: nat): Turn
    decreases |chunks|, 1
  {
    var now := Consume(Received(drained.frames), turn, codec, last);
    if now.progress.Reading? then
      var later := Stream(chunks, drained.rest, turn, codec, now.progress.last);
      Turn(later.progress, now.deltas + later.deltas)
    else now
  }

  lemma {:induction false} ConsumeMovesOn(messages: seq<Message>, turn: string, codec: Codec, last: nat)
    ensures var progress := Consume(messages, turn, codec, last).progress;
            !progress.Broken? ==> last <= progress.last
    decreases |messages|
  {
    if messages != [] {
      var now := Take(messages[0], turn, codec, last);
      if now.progress.Reading? { ConsumeMovesOn(messages[1..], turn, codec, now.progress.last); }
    }
  }

  /** Whatever arrives, a turn that ends does not end before the position it started from. */
  lemma {:induction false} StreamMovesOn(chunks: seq<string>, buffer: string, turn: string, codec: Codec, last: nat)
    ensures var progress := Stream(chunks, buffer, turn, codec, last).progress;
            !progress.Broken? ==> last <= progress.last
    decreases |chunks|
  {
    if chunks != [] && |buffer + chunks[0]| <= MAX_FRAME {
      var drained := Drain(buffer + chunks[0]);
      ConsumeMovesOn(Received(drained.frames), turn, codec, last);
      var now := Consume(Received(drained.frames), turn, codec, last);
      if now.progress.Reading? { StreamMovesOn(chunks[1..], drained.rest, turn, codec, now.progress.last); }
    }
  }

  // ---- The loop, all at once ----

  lemma {:induction false} ConsumeAppend(front: seq<Message>, back: seq<Message>, turn: string, codec: Codec, last: nat)
    ensures Consume(front + back, turn, codec, last) == Then(Consume(front, turn, codec, last), back, turn, codec)
    decreases |front|
  {
    if front == [] {
      assert front + back == back;
      assert Prepend([], Consume(back, turn, codec, last)) == Consume(back, turn, codec, last);
    } else {
      assert front == [front[0]] + front[1..] && front + back == [front[0]] + (front[1..] + back);
      ConsumeCons(front[0], front[1..], turn, codec, last);
      ConsumeCons(front[0], front[1..] + back, turn, codec, last);
      var step := Take(front[0], turn, codec, last);
      if step.progress.Reading? {
        var now := Consume(front[1..], turn, codec, step.progress.last);
        ConsumeAppend(front[1..], back, turn, codec, step.progress.last);
        if now.progress.Reading? {
          PrependTwice(step.deltas, now.deltas, Consume(back, turn, codec, now.progress.last));
        }
      }
    }
  }

  lemma {:induction false} MessagesAssociative(a: seq<Message>, b: seq<Message>, c: seq<Message>)
    ensures (a + b) + c == a + (b + c)
  {
  }

  lemma {:induction false} ReceivedAppend(front: seq<string>, back: seq<string>)
    ensures Received(front + back) == Received(front) + Received(back)
  {
    if front == [] {
      assert front + back == back && [] + Received(back) == Received(back);
    } else {
      assert front == [front[0]] + front[1..] && front + back == [front[0]] + (front[1..] + back);
      ReceivedCons(front[0], front[1..]);
      ReceivedCons(front[0], front[1..] + back);
      ReceivedAppend(front[1..], back);
      MessagesAssociative(ReceivedOne(front[0]), Received(front[1..]), Received(back));
    }
  }

  /** Chunk by chunk, the loop comes to what it would make of all frames at once; only a run
      that never sees the completion, or is stopped by the size limit, ends broken. */
  lemma {:induction false} StreamIsConsume(chunks: seq<string>, buffer: string, turn: string, codec: Codec, last: nat)
    ensures var whole := Consume(Received(Feed(chunks, buffer).frames), turn, codec, last);
            var stream := Stream(chunks, buffer, turn, codec, last);
            && (stream.progress.Done? ==> stream == whole)
            && (WithinLimit(chunks, buffer) && whole.progress.Done? ==> stream == whole)
    decreases |chunks|
  {
    if chunks != [] {
      var now := Drain(buffer + chunks[0]);
      var later := Feed(chunks[1..], now.rest);
      ReceivedAppend(now.frames, later.frames);
      ConsumeAppend(Received(now.frames), Received(later.frames), turn, codec, last);
      var step := Consume(Received(now.frames), turn, codec, last);
      if step.progress.Reading? {
        StreamIsConsume(chunks[1..], now.rest, turn, codec, step.progress.last);
      }
    }
  }

  /** Wherever reading stops, what it has passed on is a first part of what all frames received
      would have it pass on. */
  lemma {:induction false} StreamHasPrefix(chunks: seq<string>, buffer: string, turn: string, codec: Codec, last: nat)
    ensures Stream(chunks, buffer, turn, codec, last).deltas <= Consume(Received(Feed(chunks, buffer).frames), turn, codec, last).deltas
    decreases |chunks|
  {
    if chunks != [] {
      var now := Drain(buffer + chunks[0]);
      var later := Feed(chunks[1..], now.rest);
      ReceivedAppend(now.frames, later.frames);
      ConsumeAppend(Received(now.frames), Received(later.frames), turn, codec, last);
      var step := Consume(Received(now.frames), turn, codec, last);
      if step.progress.Reading? {
        StreamHasPrefix(chunks[1..], now.rest, turn, codec, step.progress.last);
      }
    }
  }

  /** The first message that completes a turn, if all before it can be decoded. */
  ghost predicate CompletesTurn(messages: seq<Message>, turn: string, codec: Codec, i: nat, payload: Payload) {
    && i < |messages| && Completion(messages[i], turn, codec) == Some(payload)
    && forall j :: 0 <= j < i ==> codec.decode(messages[j].data).Some? && Completion(messages[j], turn, codec).None?
  }

  function Completion(message: Message, turn: string, codec: Codec): Option<Payload> {
    var envelope := codec.decode(message.data);
    if message.event == "turn.completed" && envelope.Some? && envelope.value.turnId == Some(turn) then Some(envelope.value.payload) else None
  }

  lemma {:induction false} TakeDecides(message: Message, turn: string, codec: Codec, last: nat)
    ensures var progress, payload := Take(message, turn, codec, last).progress, Completion(message, turn, codec);
            && (progress.Done? <==> payload.Some?)
            && (progress.Reading? <==> payload.None? && codec.decode(message.data).Some?)
            && (payload.Some? ==> Verdict(payload.value, progress.status) && progress.error == payload.value.error)
  {
    var payload := Completion(message, turn, codec);
    if payload.Some? { VerdictIff(payload.value, TerminalStatus(payload.value)); }
  }

  /** The loop is done exactly when there is such a message, and with its verdict and error. */
  lemma {:induction false} ConsumeDoneIff(messages: seq<Message>, turn: string, codec: Codec, last: nat)
    ensures var progress := Consume(messages, turn, codec, last).progress;
            progress.Done? <==> exists i: nat, payload :: CompletesTurn(messages, turn, codec, i, payload)
    ensures forall i: nat, payload :: CompletesTurn(messages, turn, codec, i, payload) ==>
              EndsWith(Consume(messages, turn, codec, last).progress, payload)
    decreases |messages|
  {
    if messages != [] {
      TakeDecides(messages[0], turn, codec, last);
      var step := Take(messages[0], turn, codec, last);
      if step.progress.Reading? {
        var rest := messages[1..];
        ConsumeDoneIff(rest, turn, codec, step.progress.last);
        if Consume(rest, turn, codec, step.progress.last).progress.Done? {
          var i: nat, payload :| CompletesTurn(rest, turn, codec, i, payload);
          CompletesLater(messages, turn, codec, i, payload);
        }
        forall i: nat, payload | CompletesTurn(messages, turn, codec, i, payload)
          ensures EndsWith(Consume(messages, turn, codec, last).progress, payload)
        {
          CompletesLater(messages, turn, codec, i - 1, payload);
        }
      } else if step.progress.Done? {
        assert CompletesTurn(messages, turn, codec, 0, Completion(messages[0], turn, codec).value);
        forall i: nat, payload | CompletesTurn(messages, turn, codec, i, payload) ensures EndsWith(step.progress, payload) {
          assert i == 0;
        }
      }
    }
  }

  predicate EndsWith(progress: Progress, payload: Payload) {
    progress.Done? && Verdict(payload, progress.status) && progress.error == payload.error
  }

  lemma {:induction false} CompletesLater(messages: seq<Message>, turn: string, codec: Codec, i: nat, payload: Payload)
    requires messages != [] && codec.decode(messages[0].data).Some? && Completion(messages[0], turn, codec).None?
    ensures CompletesTurn(messages, turn, codec, i + 1, payload) <==> CompletesTurn(messages[1..], turn, codec, i, payload)
  {
    assert forall j :: 0 <= j < |messages| - 1 ==> messages[1..][j] == messages[j + 1];
    if CompletesTurn(messages[1..], turn, codec, i, payload) {
      forall j | 0 <= j < i + 1 ensures codec.decode(messages[j].data).Some? && Completion(messages[j], turn, codec).None? {
        if j > 0 { assert messages[1..][j - 1] == messages[j]; }
      }
    }
  }

  function DeltaLines(responseId: string, deltas: seq<string>): seq<Line> {
    if deltas == [] then [] else [ResponseDelta(responseId, deltas[0])] + DeltaLines(responseId, deltas[1..])
  }

  lemma {:induction false} DeltaLinesAppend(responseId: string, front: seq<string>, back: seq<string>)
    ensures DeltaLines(responseId, front + back) == DeltaLines(responseId, front) + DeltaLines(responseId, back)
  {
    if front == [] {
      assert front + back == back;
    } else {
      assert (front + back)[1..] == front[1..] + back;
      DeltaLinesAppend(responseId, front[1..], back);
    }
  }

  ghost predicate Wrote(before: seq<Line>, after: seq<Line>, responseId: string, deltas: seq<string>) {
    after == before + DeltaLines(responseId, deltas)
  }

  lemma {:induction false} WroteMore(before: seq<Line>, between: seq<Line>, after: seq<Line>, responseId: string, deltas: seq<string>, more: seq<string>)
    requires Wrote(before, between, responseId, deltas) && Wrote(between, after, responseId, more)
    ensures Wrote(before, after, responseId, deltas + more)
  {
    DeltaLinesAppend(responseId, deltas, more);
    LinesAssociative(before, DeltaLines(responseId, deltas), DeltaLines(responseId, more));
  }

  lemma {:induction false} LinesAssociative(a: seq<Line>, b: seq<Line>, c: seq<Line>)
    ensures (a + b) + c == a + (b + c)
  {
  }

  function Prepend(deltas: seq<string>, turn: Turn): Turn {
    Turn(turn.progress, deltas + turn.deltas)
  }

  lemma {:induction false} ReceivedCons(frame: string, frames: seq<string>)
    ensures Received([frame] + frames) == ReceivedOne(frame) + Received(frames)
  {
    assert ([frame] + frames)[1..] == frames;
  }

  lemma {:induction false} ConsumeCons(message: Message, messages: seq<Message>, turn: string, codec: Codec, last: nat)
    ensures Consume([message] + messages, turn, codec, last) == Then(Take(message, turn, codec, last), messages, turn, codec)
  {
    assert ([message] + messages)[1..] == messages;
  }

  lemma {:induction false} PrependTwice(front: seq<string>, back: seq<string>, turn: Turn)
    ensures Prepend(front, Prepend(back, turn)) == Prepend(front + back, turn)
  {
    assert front + (back + turn.deltas) == (front + back) + turn.deltas;
  }

  /** One turn of the inner loop, on the loop's own variables: `goal` is what the whole loop
      must come to and `deltas` what it has passed on so far. */
  lemma {:induction false} FrameStep(frame: string, frames: seq<string>, turn: string, codec: Codec, last: nat, deltas: seq<string>, goal: Turn)
    requires Prepend(deltas, Consume(Received([frame] + frames), turn, codec, last)) == goal
    ensures
      var message := ParseFrame(frame);
      if message.None? then Prepend(deltas, Consume(Received(frames), turn, codec, last)) == goal
      else
        var step := Take(message.value, turn, codec, last);
        if step.progress.Reading? then
          Prepend(deltas + step.deltas, Consume(Received(frames), turn, codec, step.progress.last)) == goal
        else goal == Turn(step.progress, deltas + step.deltas)
  {
    ReceivedCons(frame, frames);
    var message, left := ParseFrame(frame), Received(frames);
    if message.None? {
      assert [] + left == left;
    } else {
      var step := Take(message.value, turn, codec, last);
      ConsumeCons(message.value, left, turn, codec, last);
      if step.progress.Reading? {
        PrependTwice(deltas, step.deltas, Consume(left, turn, codec, step.progress.last));
      }
    }
  }

  method EmitDeltas(responseId: string, deltas: seq<string>, writer: Writer)
    requires |deltas| <= 1
    modifies writer
    ensures Wrote(old(writer.lines), writer.lines, responseId, deltas)
  {
    if deltas != [] {
      writer.Emit(ResponseDelta(responseId, deltas[0]));
    }
  }

  /** The inner loop: everything the buffer holds, one frame at a time, until it is exhausted
      or the turn is over. */
  method ReadFrames(buffer: FrameBuffer, turn: string, responseId: string, codec: Codec, since: nat, writer: Writer)
    returns (outcome: Progress, ghost deltas: seq<string>)
    modifies buffer, writer
    ensures Turn(outcome, deltas) == Consume(Received(Drain(old(buffer.bytes)).frames), turn, codec, since)
    ensures Wrote(old(writer.lines), writer.lines, responseId, deltas)
    ensures outcome.Reading? ==> buffer.bytes == Drain(old(buffer.bytes)).rest
  {
    ghost var all := Drain(buffer.bytes);
    ghost var goal := Consume(Received(all.frames), turn, codec, since);
    deltas := [];
    var last := since;
    assert Prepend([], goal) == goal;
    var frame := buffer.TakeFrame();
    while frame.Some?
      invariant Wrote(old(writer.lines), writer.lines, responseId, deltas)
      invariant Drain(buffer.bytes).rest == all.rest
      invariant frame.None? ==> buffer.bytes == all.rest && Prepend(deltas, Turn(Reading(last), [])) == goal
      invariant frame.Some? ==> Prepend(deltas, Consume(Received([frame.value] + Drain(buffer.bytes).frames), turn, codec, last)) == goal
      decreases |buffer.bytes|, frame.Some?
    {
      FrameStep(frame.value, Drain(buffer.bytes).frames, turn, codec, last, deltas, goal);
      var message := ParseSseFrame(frame.value);
      if message.Some? {
        var step := Take(message.value, turn, codec, last);
        ghost var between := writer.lines;
        EmitDeltas(responseId, step.deltas, writer);
        WroteMore(old(writer.lines), between, writer.lines, responseId, deltas, step.deltas);
        deltas := deltas + step.deltas;
        if !step.progress.Reading? {
          return step.progress, deltas;
        }
        last := step.progress.last;
      }
      frame := buffer.TakeFrame();
    }
    assert goal.deltas == deltas + [] == deltas;
    outcome := Reading(last);
  }

  /** One turn of the outer loop. */
  lemma {:induction false} ChunkStep(chunks: seq<string>, buffer: string, turn: string, codec: Codec, last: nat, deltas: seq<string>, goal: Turn)
    requires chunks != [] && Prepend(deltas, Stream(chunks, buffer, turn, codec, last)) == goal
    ensures
      if |buffer + chunks[0]| > MAX_FRAME then goal == Turn(Broken, deltas)
      else
        var drained := Drain(buffer + chunks[0]);
        var now := Consume(Received(drained.frames), turn, codec, last);
        if now.progress.Reading? then
          Prepend(deltas + now.deltas, Stream(chunks[1..], drained.rest, turn, codec, now.progress.last)) == goal
        else goal == Turn(now.progress, deltas + now.deltas)
  {
    if |buffer + chunks[0]| > MAX_FRAME {
      assert deltas + [] == deltas;
    } else {
      var drained := Drain(buffer + chunks[0]);
      var now := Consume(Received(drained.frames), turn, codec, last);
      if now.progress.Reading? {
        PrependTwice(deltas, now.deltas, Stream(chunks[1..], drained.rest, turn, codec, now.progress.last));
      }
    }
  }

  /** stream_turn_events, from the moment the event stream is connected. */
  method StreamTurnEvents(chunks: seq<string>, turn: string, responseId: string, codec: Codec, since: nat, writer: Writer)
    returns (outcome: Progress, ghost deltas: seq<string>)
    modifies writer
    ensures Turn(outcome, deltas) == Stream(chunks, "", turn, codec, since)
    ensures Wrote(old(writer.lines), writer.lines, responseId, deltas)
    ensures !outcome.Reading?
  {
    var buffer := new FrameBuffer();
    var last := since;
    ghost var goal := Stream(chunks, "", turn, codec, since);
    deltas := [];
    assert Prepend([], goal) == goal && chunks[0..] == chunks;
    for i := 0 to |chunks|
      invariant fresh(buffer)
      invariant Wrote(old(writer.lines), writer.lines, responseId, deltas)
      invariant Prepend(deltas, Stream(chunks[i..], buffer.bytes, turn, codec, last)) == goal
    {
      ChunkStep(chunks[i..], buffer.bytes, turn, codec, last, deltas, goal);
      assert chunks[i..][0] == chunks[i] && chunks[i..][1..] == chunks[i + 1..];
      var accepted := buffer.Extend(chunks[i]);
      if !accepted {
        return Broken, deltas;
      }
      ghost var more;
      ghost var between := writer.lines;
      outcome, more := ReadFrames(buffer, turn, responseId, codec, last, writer);
      WroteMore(old(writer.lines), between, writer.lines, responseId, deltas, more);
      deltas := deltas + more;
      if !outcome.Reading? {
        return outcome, deltas;
      }
      last := outcome.last;
    }
    assert chunks[|chunks|..] == [] && deltas + [] == deltas;
    outcome := Broken;
  }
}
