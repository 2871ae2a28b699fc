/** Whole runs of a bridge against a runtime that keeps one append-only event log a thread:
    from the bytes on the wire to what reaches the client of the turn. */
module TurnRuns {
  import opened Options
  import opened Text
  import opened SseFraming
  import opened SseMessages
  import opened TurnStream
  import opened RuntimeBridges

  // ---- The runtime's log of one thread ----

  datatype Entry = Entry(seqNo: nat, turnId: Option<string>, event: string, payload: Payload)

  predicate Completes(entry: Entry, turn: string) {
    entry.turnId == Some(turn) && entry.event == "turn.completed"
  }

  function Said(entry: Entry, turn: string): seq<string> {
    var delta := entry.payload.delta;
    if entry.turnId == Some(turn) && entry.event == "item.delta" && entry.payload.kind == Some("agent_message")
       && delta.Some? && |delta.value| > 0
    then [delta.value] else []
  }

  /** All text deltas logged for a turn. */
  function DeltasOf(log: seq<Entry>, turn: string): seq<string> {
    if log == [] then [] else Said(log[0], turn) + DeltasOf(log[1..], turn)
  }

  predicate Ends(log: seq<Entry>, turn: string) {
    exists i :: 0 <= i < |log| && Completes(log[i], turn)
  }

  /** The text deltas logged for a turn before its first completion: what its client is owed. */
  function Owed(log: seq<Entry>, turn: string): seq<string> {
    if log == [] || Completes(log[0], turn) then [] else Said(log[0], turn) + Owed(log[1..], turn)
  }

  predicate Mentions(log: seq<Entry>, turn: string) {
    exists i :: 0 <= i < |log| && log[i].turnId == Some(turn)
  }

  /** Sequence numbers start at 1 and grow; event names survive printing. */
  predicate GoodLog(log: seq<Entry>) {
    && (forall i :: 0 <= i < |log| ==> log[i].seqNo >= 1 && Trimmed(log[i].event) && OneLine(log[i].event))
    && (forall i, j :: 0 <= i < j < |log| ==> log[i].seqNo < log[j].seqNo)
  }

  function Top(log: seq<Entry>): nat {
    if log == [] then 0 else log[|log| - 1].seqNo
  }

  /** What the runtime replays to a reader that has seen everything up to a number. */
  function Beyond(log: seq<Entry>, since: nat): seq<Entry> {
    if log == [] then []
    else (if log[0].seqNo > since then [log[0]] else []) + Beyond(log[1..], since)
  }

  // ---- The log on the wire ----

  ghost predicate Faithful(codec: Codec) {
    forall e: Envelope ::
      && codec.encode(e) != []
      && (forall i :: 0 <= i < |codec.encode(e)| ==> OneLine(codec.encode(e)[i]) && NoLeadingSpace(codec.encode(e)[i]))
      && codec.decode(Join(codec.encode(e), "\n")) == Some(e)
  }

  function EnvelopeOf(entry: Entry): Envelope {
    Envelope(Some(entry.seqNo), entry.turnId, entry.payload)
  }

  /** The printed items are the entries in order, with any comments between them. */
  predicate Carries(items: seq<Item>, log: seq<Entry>, codec: Codec) {
    if items == [] then log == []
    else match items[0]
      case Comment(text) => OneLine(text) && Carries(items[1..], log, codec)
      case Event(name, data) =>
        && log != [] && name == log[0].event && data == codec.encode(EnvelopeOf(log[0]))
        && Carries(items[1..], log[1..], codec)
  }

  predicate Printed(log: seq<Entry>) {
    forall i :: 0 <= i < |log| ==> Trimmed(log[i].event) && OneLine(log[i].event)
  }

  function MessagesOf(log: seq<Entry>, codec: Codec): seq<Message> {
    if log == [] then []
    else [Message(log[0].event, Join(codec.encode(EnvelopeOf(log[0])), "\n"))] + MessagesOf(log[1..], codec)
  }

  lemma {:induction false} CarriedMessages(items: seq<Item>, log: seq<Entry>, codec: Codec)
    requires Faithful(codec) && Carries(items, log, codec)
    requires Printed(log)
    ensures AllPrintable(items) && DeliveredAll(items) == MessagesOf(log, codec)
  {
    if items != [] {
      match items[0] {
        case Comment(_) =>
          CarriedMessages(items[1..], log, codec);
          assert [] + DeliveredAll(items[1..]) == DeliveredAll(items[1..]);
        case Event(name, data) =>
          CarriedMessages(items[1..], log[1..], codec);
          TrimKeepsIff(name);
          JoinShortens(data);
      }
    }
  }

  lemma {:induction false} CarriesPrefix(items: seq<Item>, log: seq<Entry>, codec: Codec, n: nat) returns (m: nat)
    requires n <= |items| && Carries(items, log, codec)
    ensures m <= |log| && Carries(items[..n], log[..m], codec)
  {
    if n == 0 {
      m := 0;
    } else {
      assert items[..n][1..] == items[1..][..n - 1];
      if items[0].Comment? {
        m := CarriesPrefix(items[1..], log, codec, n - 1);
      } else {
        var k := CarriesPrefix(items[1..], log[1..], codec, n - 1);
        m := k + 1;
        assert log[..m][1..] == log[1..][..k];
      }
    }
  }

  lemma {:induction false} PrintsPrefix(items: seq<Item>, n: nat)
    requires n <= |items|
    ensures Prints(items)[..n] == Prints(items[..n])
  {
    if n > 0 {
      PrintsPrefix(items[1..], n - 1);
      assert items[..n][1..] == items[1..][..n - 1];
    }
  }

  /** A connection that breaks anywhere has delivered the frames of a prefix of the items. */
  lemma {:induction false} FramesReceived(items: seq<Item>, chunks: seq<string>) returns (n: nat)
    requires AllPrintable(items) && Flatten(chunks) <= PrintAll(items)
    ensures n <= |items| && Feed(chunks, "").frames == Prints(items[..n])
    ensures Flatten(chunks) == PrintAll(items) ==> n == |items|
  {
    var got, whole := Flatten(chunks), PrintAll(items);
    var missing := whole[|got|..];
    assert whole == got + missing;
    NoCarriageReturn(items);
    NoCrlf(whole);
    assert '\r' !in got;
    NoCrlf(got);
    OneDelimiterIsNotMixed(whole);
    OneDelimiterIsNotMixed(got);
    ChunkIndependentIff(got);
    DrainInTwo(got, missing);
    DrainPrinted(items);
    n := |Drain(got).frames|;
    assert Drain(got).frames == Prints(items)[..n];
    PrintsPrefix(items, n);
  }

  // ---- The loop over entries ----

  function FirstCompletion(log: seq<Entry>, turn: string): Entry
    requires Ends(log, turn)
  {
    if Completes(log[0], turn) then log[0] else EndsLater(log, turn); FirstCompletion(log[1..], turn)
  }

  lemma {:induction false} EndsLater(log: seq<Entry>, turn: string)
    requires log != [] && !Completes(log[0], turn)
    ensures Ends(log, turn) == Ends(log[1..], turn)
  {
    if Ends(log, turn) {
      var i :| 0 <= i < |log| && Completes(log[i], turn);
      assert Completes(log[1..][i - 1], turn);
    }
    if Ends(log[1..], turn) {
      var i :| 0 <= i < |log[1..]| && Completes(log[1..][i], turn);
      assert Completes(log[i + 1], turn);
    }
  }

  lemma {:induction false} ConsumeEntries(log: seq<Entry>, turn: string, codec: Codec, last: nat, bound: nat)
    requires Faithful(codec) && last <= bound
    requires forall i :: 0 <= i < |log| ==> log[i].seqNo <= bound
    ensures var turned := Consume(MessagesOf(log, codec), turn, codec, last);
            && turned.deltas == Owed(log, turn)
            && (if Ends(log, turn) then
                  turned.progress.Done? && Verdict(FirstCompletion(log, turn).payload, turned.progress.status)
                else turned.progress.Reading?)
            && last <= turned.progress.last <= bound
    decreases |log|
  {
    if log != [] {
      var first := log[0];
      var message := Message(first.event, Join(codec.encode(EnvelopeOf(first)), "\n"));
      ConsumeCons(message, MessagesOf(log[1..], codec), turn, codec, last);
      var step := Take(message, turn, codec, last);
      assert codec.decode(message.data) == Some(EnvelopeOf(first));
      VerdictIff(first.payload, TerminalStatus(first.payload));
      assert step.progress.last == Max(last, first.seqNo);
      if !Completes(first, turn) {
        assert step.deltas == Said(first, turn);
        EndsLater(log, turn);
        ConsumeEntries(log[1..], turn, codec, step.progress.last, bound);
      }
    }
  }

  /** Entries in order, all behind a position. */
  predicate Ascends(log: seq<Entry>, since: nat) {
    && (forall i :: 0 <= i < |log| ==> log[i].seqNo > since)
    && (forall i, j :: 0 <= i < j < |log| ==> log[i].seqNo < log[j].seqNo)
  }

  lemma {:induction false} AscendsLater(log: seq<Entry>, since: nat)
    requires log != [] && Ascends(log, since)
    ensures Ascends(log[1..], log[0].seqNo)
  {
    assert forall i :: 0 <= i < |log| - 1 ==> log[1..][i] == log[i + 1];
  }

  lemma {:induction false} AscendsPrefix(log: seq<Entry>, since: nat, m: nat)
    requires m <= |log| && Ascends(log, since)
    ensures Ascends(log[..m], since)
  {
  }

  /** The position a finished turn leaves is that of its completion. */
  lemma {:induction false} ConsumeStopsAt(log: seq<Entry>, turn: string, codec: Codec, last: nat)
    requires Faithful(codec) && Ascends(log, last) && Ends(log, turn)
    ensures var progress := Consume(MessagesOf(log, codec), turn, codec, last).progress;
            progress.Done? && progress.last == FirstCompletion(log, turn).seqNo
    decreases |log|
  {
    var first := log[0];
    var message := Message(first.event, Join(codec.encode(EnvelopeOf(first)), "\n"));
    ConsumeCons(message, MessagesOf(log[1..], codec), turn, codec, last);
    assert codec.decode(message.data) == Some(EnvelopeOf(first));
    if !Completes(first, turn) {
      EndsLater(log, turn);
      AscendsLater(log, last);
      ConsumeStopsAt(log[1..], turn, codec, first.seqNo);
    }
  }

  lemma {:induction false} OwedAppend(front: seq<Entry>, back: seq<Entry>, turn: string)
    ensures Ends(front + back, turn) == (Ends(front, turn) || Ends(back, turn))
    ensures Owed(front + back, turn) == if Ends(front, turn) then Owed(front, turn) else DeltasOf(front, turn) + Owed(back, turn)
    ensures Ends(front, turn) ==> FirstCompletion(front + back, turn) == FirstCompletion(front, turn)
    ensures !Ends(front, turn) ==> Owed(front, turn) == DeltasOf(front, turn)
    decreases |front|
  {
    if front == [] {
      assert front + back == back;
    } else {
      assert (front + back)[0] == front[0] && (front + back)[1..] == front[1..] + back;
      if Completes(front[0], turn) {
        assert Completes((front + back)[0], turn);
      } else {
        EndsLater(front, turn);
        EndsLater(front + back, turn);
        OwedAppend(front[1..], back, turn);
      }
    }
  }

  lemma {:induction false} MessagesReceived(items: seq<Item>, log: seq<Entry>, chunks: seq<string>, codec: Codec) returns (m: nat)
    requires Faithful(codec) && Carries(items, log, codec) && Flatten(chunks) <= PrintAll(items) && Printed(log)
    ensures m <= |log| && Received(Feed(chunks, "").frames) == MessagesOf(log[..m], codec)
    ensures Flatten(chunks) == PrintAll(items) ==> m == |log|
  {
    CarriedMessages(items, log, codec);
    var n := FramesReceived(items, chunks);
    if n == |items| {
      assert items[..n] == items && log[..|log|] == log;
      m := |log|;
    } else {
      m := CarriesPrefix(items, log, codec, n);
    }
    CarriedMessages(items[..n], log[..m], codec);
    ReceivedPrinted(items[..n]);
  }

  /** A turn that finished has passed on exactly what it is owed of a log that completes it, and
      has moved the position to that completion. */
  ghost predicate PassesOn(turned: Turn, log: seq<Entry>, turn: string, since: nat, bound: nat) {
    turned.progress.Done? ==>
      && Ends(log, turn) && turned.deltas == Owed(log, turn)
      && Verdict(FirstCompletion(log, turn).payload, turned.progress.status)
      && turned.progress.last == FirstCompletion(log, turn).seqNo
      && since <= turned.progress.last <= bound
  }

  /** From the wire to the client: when the reading loop finishes, the turn's completion was
      among the entries sent, and the client got exactly what it was owed of those entries. */
  lemma {:induction false} WireToClient(items: seq<Item>, log: seq<Entry>, chunks: seq<string>, turn: string, codec: Codec, since: nat, bound: nat)
    requires Faithful(codec) && Carries(items, log, codec) && Flatten(chunks) <= PrintAll(items)
    requires Printed(log) && Ascends(log, since) && since <= bound && forall i :: 0 <= i < |log| ==> log[i].seqNo <= bound
    ensures PassesOn(Stream(chunks, "", turn, codec, since), log, turn, since, bound)
  {
    var m := StreamIsPrefix(items, log, chunks, turn, codec, since);
    PrefixToClient(Stream(chunks, "", turn, codec, since), log, m, turn, codec, since, bound);
  }

  lemma {:induction false} PrefixToClient(stream: Turn, log: seq<Entry>, m: nat, turn: string, codec: Codec, since: nat, bound: nat)
    requires Faithful(codec) && m <= |log| && Ascends(log, since) && since <= bound && forall i :: 0 <= i < |log| ==> log[i].seqNo <= bound
    requires stream.progress.Done? ==> stream == Consume(MessagesOf(log[..m], codec), turn, codec, since)
    ensures PassesOn(stream, log, turn, since, bound)
  {
    assert log == log[..m] + log[m..];
    AscendsPrefix(log, since, m);
    EntriesToClient(log[..m], log[m..], turn, codec, since, bound);
  }

  lemma {:induction false} StreamIsPrefix(items: seq<Item>, log: seq<Entry>, chunks: seq<string>, turn: string, codec: Codec, since: nat) returns (m: nat)
    requires Faithful(codec) && Carries(items, log, codec) && Flatten(chunks) <= PrintAll(items) && Printed(log)
    ensures m <= |log| && (Flatten(chunks) == PrintAll(items) ==> m == |log|)
    ensures var whole, stream := Consume(MessagesOf(log[..m], codec), turn, codec, since), Stream(chunks, "", turn, codec, since);
            && (stream.progress.Done? ==> stream == whole)
            && (WithinLimit(chunks, "") && whole.progress.Done? ==> stream == whole)
  {
    m := MessagesReceived(items, log, chunks, codec);
    StreamIsConsume(chunks, "", turn, codec, since);
  }

  /** When everything sent arrives within the size limit, the loop does finish. */
  lemma {:induction false} CompletionArrives(items: seq<Item>, log: seq<Entry>, chunks: seq<string>, turn: string, codec: Codec, since: nat, bound: nat)
    requires Faithful(codec) && Carries(items, log, codec) && Flatten(chunks) == PrintAll(items)
    requires Printed(log) && since <= bound && forall i :: 0 <= i < |log| ==> log[i].seqNo <= bound
    requires WithinLimit(chunks, "") && Ends(log, turn)
    ensures Stream(chunks, "", turn, codec, since).progress.Done?
  {
    var m := StreamIsPrefix(items, log, chunks, turn, codec, since);
    assert log[..m] == log;
    ConsumeEntries(log, turn, codec, since, bound);
  }

  lemma {:induction false} EntriesToClient(seen: seq<Entry>, unseen: seq<Entry>, turn: string, codec: Codec, since: nat, bound: nat)
    requires Faithful(codec) && Ascends(seen, since) && since <= bound && forall i :: 0 <= i < |seen| ==> seen[i].seqNo <= bound
    ensures PassesOn(Consume(MessagesOf(seen, codec), turn, codec, since), seen + unseen, turn, since, bound)
  {
    ConsumeEntries(seen, turn, codec, since, bound);
    OwedAppend(seen, unseen, turn);
    if Ends(seen, turn) { ConsumeStopsAt(seen, turn, codec, since); }
  }

  // ---- Runs ----

  /** The bridge's saved positions beside the runtime's logs. */
  datatype World = World(lastSeq: map<string, nat>, logs: map<string, seq<Entry>>)

  datatype Step =
    | Opened(thread: string)
    | Logged(thread: string, entries: seq<Entry>)
      /** A turn: `before` is logged between the post and the replay of the backlog, `gap` between
          that replay and the subscription to live events, `after` once subscribed; `chunks` is
          what arrives of the items sent before the connection ends. */
    | Turned(thread: string, turn: string, before: seq<Entry>, gap: seq<Entry>, after: seq<Entry>, items: seq<Item>, chunks: seq<string>)

  function LogAfter(world: World, step: Step): seq<Entry>
    requires step.Turned? && step.thread in world.logs
  {
    world.logs[step.thread] + step.before + (step.gap + step.after)
  }

  function Sent(world: World, step: Step): seq<Entry>
    requires step.Turned? && step.thread in world.logs
  {
    Beyond(world.logs[step.thread] + step.before, Since(world.lastSeq, step.thread)) + step.after
  }

  /** What the runtime guarantees: logs only grow and stay good, a posted turn has a fresh id,
      and the wire carries the replayed backlog followed by the live events. */
  predicate Possible(world: World, step: Step, codec: Codec) {
    match step
    case Opened(thread) => thread !in world.logs
    case Logged(thread, entries) => thread in world.logs && GoodLog(world.logs[thread] + entries)
    case Turned(thread, turn, _, _, _, items, chunks) =>
      && thread in world.logs && !Mentions(world.logs[thread], turn)
      && GoodLog(LogAfter(world, step))
      && Carries(items, Sent(world, step), codec) && Flatten(chunks) <= PrintAll(items)
  }

  function TurnOf(world: World, step: Step, codec: Codec): Turn
    requires step.Turned?
  {
    Streamed(Open(step.chunks), step.turn, codec, Since(world.lastSeq, step.thread))
  }

  function Next(world: World, step: Step, codec: Codec): World
    requires Possible(world, step, codec)
  {
    match step
    case Opened(thread) => World(world.lastSeq[thread := Since(world.lastSeq, thread)], world.logs[thread := []])
    case Logged(thread, entries) => world.(logs := world.logs[thread := world.logs[thread] + entries])
    case Turned(thread, _, _, _, _, _, _) =>
      World(Advance(world.lastSeq, thread, TurnOf(world, step, codec).progress), world.logs[thread := LogAfter(world, step)])
  }

  /** No saved position is beyond the end of its thread's log. */
  predicate Inv(world: World) {
    && (forall thread :: thread in world.lastSeq ==> thread in world.logs)
    && (forall thread :: thread in world.logs ==> GoodLog(world.logs[thread]) && Since(world.lastSeq, thread) <= Top(world.logs[thread]))
  }

  lemma {:induction false} TopBounds(log: seq<Entry>)
    requires GoodLog(log)
    ensures forall i :: 0 <= i < |log| ==> log[i].seqNo <= Top(log)
  {
  }

  lemma {:induction false} BeyondWithin(log: seq<Entry>, since: nat)
    ensures forall i :: 0 <= i < |Beyond(log, since)| ==> Beyond(log, since)[i] in log
  {
    if log != [] {
      BeyondWithin(log[1..], since);
      var rest := Beyond(log[1..], since);
      forall i | 0 <= i < |Beyond(log, since)| ensures Beyond(log, since)[i] in log {
        if log[0].seqNo > since {
          if i > 0 { assert Beyond(log, since)[i] == rest[i - 1]; }
        } else {
          assert Beyond(log, since)[i] == rest[i];
        }
      }
    }
  }

  /** Leaving out old entries changes nothing for a turn whose entries are all new. */
  lemma {:induction false} BeyondKeepsTurn(log: seq<Entry>, since: nat, turn: string)
    requires forall i :: 0 <= i < |log| && log[i].turnId == Some(turn) ==> log[i].seqNo > since
    ensures Ends(Beyond(log, since), turn) == Ends(log, turn)
    ensures Owed(Beyond(log, since), turn) == Owed(log, turn)
    ensures DeltasOf(Beyond(log, since), turn) == DeltasOf(log, turn)
    ensures Ends(log, turn) ==> FirstCompletion(Beyond(log, since), turn) == FirstCompletion(log, turn)
  {
    if log != [] {
      BeyondKeepsTurn(log[1..], since, turn);
      var rest := Beyond(log[1..], since);
      if !Completes(log[0], turn) { EndsLater(log, turn); }
      if log[0].seqNo > since {
        assert Beyond(log, since)[0] == log[0] && Beyond(log, since)[1..] == rest;
        if !Completes(log[0], turn) { EndsLater(Beyond(log, since), turn); }
        else { assert Completes(Beyond(log, since)[0], turn); }
      } else {
        assert Beyond(log, since) == rest;
      }
    }
  }

  lemma {:induction false} NewEntriesAreBeyond(world: World, step: Step, codec: Codec)
    requires Inv(world) && step.Turned? && Possible(world, step, codec)
    ensures var replayed := world.logs[step.thread] + step.before;
            forall i :: 0 <= i < |replayed| && replayed[i].turnId == Some(step.turn) ==>
              replayed[i].seqNo > Since(world.lastSeq, step.thread)
  {
    var old' := world.logs[step.thread];
    var replayed, whole := old' + step.before, LogAfter(world, step);
    assert forall i :: 0 <= i < |replayed| ==> whole[i] == replayed[i];
    forall i | 0 <= i < |replayed| && replayed[i].turnId == Some(step.turn)
      ensures replayed[i].seqNo > Since(world.lastSeq, step.thread)
    {
      assert i >= |old'| by {
        assert forall k :: 0 <= k < |old'| ==> old'[k].turnId != Some(step.turn) && replayed[k] == old'[k];
      }
      if old' != [] { assert whole[|old'| - 1].seqNo < whole[i].seqNo; }
    }
  }

  predicate AllIn(some: seq<Entry>, log: seq<Entry>) {
    forall i :: 0 <= i < |some| ==> some[i] in log
  }

  /** All that is sent is in the log. */
  lemma {:induction false} SentIsLogged(replayed: seq<Entry>, since: nat, gap: seq<Entry>, after: seq<Entry>)
    ensures AllIn(Beyond(replayed, since) + after, replayed + (gap + after))
  {
    var sent, whole := Beyond(replayed, since) + after, replayed + (gap + after);
    BeyondWithin(replayed, since);
    forall i | 0 <= i < |sent| ensures sent[i] in whole {
      if i < |sent| - |after| {
        assert sent[i] == Beyond(replayed, since)[i] && sent[i] in replayed;
      } else {
        assert sent[i] == whole[|whole| - |sent| + i];
      }
    }
  }

  lemma {:induction false} LoggedIsBounded(some: seq<Entry>, log: seq<Entry>)
    requires GoodLog(log) && AllIn(some, log)
    ensures Printed(some) && forall i :: 0 <= i < |some| ==> some[i].seqNo <= Top(log)
  {
    TopBounds(log);
  }

  lemma {:induction false} TopGrows(log: seq<Entry>, more: seq<Entry>)
    requires GoodLog(log + more)
    ensures Top(log) <= Top(log + more)
  {
    if log != [] && more != [] { assert (log + more)[|log| - 1].seqNo < (log + more)[|log + more| - 1].seqNo; }
    if more == [] { assert log + more == log; }
  }

  lemma {:induction false} BeyondAscends(log: seq<Entry>, since: nat)
    requires forall i, j :: 0 <= i < j < |log| ==> log[i].seqNo < log[j].seqNo
    ensures Ascends(Beyond(log, since), since)
  {
    if log != [] {
      var rest := Beyond(log[1..], since);
      assert forall i :: 0 <= i < |log| - 1 ==> log[1..][i] == log[i + 1];
      BeyondAscends(log[1..], since);
      BeyondWithin(log[1..], since);
      if log[0].seqNo > since {
        assert Beyond(log, since) == [log[0]] + rest;
        forall j | 0 <= j < |rest| ensures log[0].seqNo < rest[j].seqNo {
          assert rest[j] in log[1..];
        }
      } else {
        assert Beyond(log, since) == rest;
      }
    }
  }

  lemma {:induction false} SentAscends(replayed: seq<Entry>, gap: seq<Entry>, after: seq<Entry>, since: nat, n: nat)
    requires GoodLog(replayed + (gap + after)) && n <= |replayed| && since <= Top(replayed[..n])
    ensures Ascends(Beyond(replayed, since) + after, since)
  {
    var whole, kept := replayed + (gap + after), Beyond(replayed, since);
    var sent := kept + after;
    assert forall i :: 0 <= i < |replayed| ==> whole[i] == replayed[i];
    assert forall i :: 0 <= i < |after| ==> whole[|replayed| + |gap| + i] == after[i];
    BeyondAscends(replayed, since);
    BeyondWithin(replayed, since);
    forall j | 0 <= j < |after| ensures after[j].seqNo > since {
      if n > 0 { assert replayed[..n][n - 1] == whole[n - 1]; }
    }
    forall i, j | 0 <= i < |kept| && 0 <= j < |after| ensures kept[i].seqNo < after[j].seqNo {
      assert kept[i] in replayed;
    }
    forall i, j | 0 <= i < j < |sent| ensures sent[i].seqNo < sent[j].seqNo {
      if i >= |kept| { assert sent[i] == after[i - |kept|] && sent[j] == after[j - |kept|]; }
      else if j >= |kept| { assert sent[i] == kept[i] && sent[j] == after[j - |kept|]; }
    }
  }

  lemma {:induction false} SentBounds(world: World, step: Step, codec: Codec)
    requires Inv(world) && step.Turned? && Possible(world, step, codec)
    ensures Since(world.lastSeq, step.thread) <= Top(LogAfter(world, step))
    ensures var sent := Sent(world, step);
            forall i :: 0 <= i < |sent| ==> sent[i].seqNo <= Top(LogAfter(world, step))
    ensures Printed(Sent(world, step)) && Ascends(Sent(world, step), Since(world.lastSeq, step.thread))
  {
    var log := world.logs[step.thread];
    assert (log + step.before)[..|log|] == log;
    SentAscends(log + step.before, step.gap, step.after, Since(world.lastSeq, step.thread), |log|);
    SentIsLogged(log + step.before, Since(world.lastSeq, step.thread), step.gap, step.after);
    LoggedIsBounded(Sent(world, step), LogAfter(world, step));
    assert LogAfter(world, step) == log + (step.before + (step.gap + step.after));
    TopGrows(log, step.before + (step.gap + step.after));
  }

  lemma {:induction false} InvLogged(world: World, thread: string, entries: seq<Entry>, codec: Codec)
    requires Inv(world) && Possible(world, Logged(thread, entries), codec)
    ensures Inv(Next(world, Logged(thread, entries), codec))
  {
    TopGrows(world.logs[thread], entries);
    InvLonger(world, thread, world.logs[thread] + entries);
  }

  lemma {:induction false} InvLonger(world: World, thread: string, log: seq<Entry>)
    requires Inv(world) && thread in world.logs && GoodLog(log) && Since(world.lastSeq, thread) <= Top(log)
    ensures Inv(world.(logs := world.logs[thread := log]))
  {
  }

  /** What was sent, as the loop sees it: from a position, within a bound, in a trim print. */
  ghost predicate WellSent(world: World, step: Step, codec: Codec)
    requires step.Turned? && step.thread in world.logs
  {
    var sent, since, top := Sent(world, step), Since(world.lastSeq, step.thread), Top(LogAfter(world, step));
    && Carries(step.items, sent, codec) && Flatten(step.chunks) <= PrintAll(step.items)
    && Printed(sent) && Ascends(sent, since) && since <= top && forall i :: 0 <= i < |sent| ==> sent[i].seqNo <= top
  }

  lemma {:induction false} SentWell(world: World, step: Step, codec: Codec)
    requires Inv(world) && step.Turned? && Possible(world, step, codec)
    ensures WellSent(world, step, codec)
  {
    SentBounds(world, step, codec);
  }

  lemma {:induction false} SentPassesOn(world: World, step: Step, codec: Codec)
    requires Faithful(codec) && step.Turned? && step.thread in world.logs && WellSent(world, step, codec)
    ensures PassesOn(TurnOf(world, step, codec), Sent(world, step), step.turn, Since(world.lastSeq, step.thread), Top(LogAfter(world, step)))
    ensures TurnOf(world, step, codec).deltas <= Owed(Sent(world, step), step.turn)
  {
    var sent, since, top := Sent(world, step), Since(world.lastSeq, step.thread), Top(LogAfter(world, step));
    WireToClient(step.items, sent, step.chunks, step.turn, codec, since, top);
    WireToPrefix(step.items, sent, step.chunks, step.turn, codec, since, top);
  }

  lemma {:induction false} TurnAdvances(world: World, step: Step, codec: Codec)
    requires Faithful(codec) && Inv(world) && step.Turned? && Possible(world, step, codec)
    ensures Since(world.lastSeq, step.thread) <= Top(LogAfter(world, step))
    ensures var progress := TurnOf(world, step, codec).progress;
            progress.Done? ==> Since(world.lastSeq, step.thread) <= progress.last <= Top(LogAfter(world, step))
  {
    SentWell(world, step, codec);
    SentPassesOn(world, step, codec);
  }

  /** Every step keeps every saved position within its log, and none moves back, whether the
      turn finishes or fails. */
  lemma {:induction false} InvNext(world: World, step: Step, codec: Codec)
    requires Faithful(codec) && Inv(world) && Possible(world, step, codec)
    ensures Inv(Next(world, step, codec))
    ensures NoneMovedBack(world.lastSeq, Next(world, step, codec).lastSeq)
  {
    match step {
      case Opened(_) =>
      case Logged(thread, entries) => InvLogged(world, thread, entries, codec);
      case Turned(thread, _, _, _, _, _, _) =>
        TurnAdvances(world, step, codec);
        InvReplaced(world, thread, LogAfter(world, step), TurnOf(world, step, codec).progress);
    }
  }

  lemma {:induction false} InvReplaced(world: World, thread: string, log: seq<Entry>, progress: Progress)
    requires Inv(world) && thread in world.logs && GoodLog(log) && Since(world.lastSeq, thread) <= Top(log)
    requires progress.Done? ==> Since(world.lastSeq, thread) <= progress.last <= Top(log)
    ensures var next := World(Advance(world.lastSeq, thread, progress), world.logs[thread := log]);
            Inv(next) && NoneMovedBack(world.lastSeq, next.lastSeq)
  {
  }

  /** What the loop makes of what was sent. */
  lemma {:induction false} SentToClient(world: World, step: Step, codec: Codec)
    requires Faithful(codec) && Inv(world) && step.Turned? && Possible(world, step, codec)
    requires TurnOf(world, step, codec).progress.Done?
    ensures var turned, sent := TurnOf(world, step, codec), Sent(world, step);
            && Ends(sent, step.turn) && turned.deltas == Owed(sent, step.turn)
            && Verdict(FirstCompletion(sent, step.turn).payload, turned.progress.status)
            && turned.progress.last == FirstCompletion(sent, step.turn).seqNo
  {
    SentWell(world, step, codec);
    SentPassesOn(world, step, codec);
  }

  lemma {:induction false} SentIsDelivered(world: World, step: Step, codec: Codec)
    requires Inv(world) && step.Turned? && Possible(world, step, codec) && Ends(Sent(world, step), step.turn)
    ensures var sent, delivered := Sent(world, step), world.logs[step.thread] + step.before + step.after;
            && Ends(delivered, step.turn) && Owed(sent, step.turn) == Owed(delivered, step.turn)
            && FirstCompletion(sent, step.turn) == FirstCompletion(delivered, step.turn)
  {
    var since, replayed := Since(world.lastSeq, step.thread), world.logs[step.thread] + step.before;
    NewEntriesAreBeyond(world, step, codec);
    BeyondKeepsTurn(replayed, since, step.turn);
    OwedAppend(Beyond(replayed, since), step.after, step.turn);
    OwedAppend(replayed, step.after, step.turn);
    SameFirstCompletion(Beyond(replayed, since), replayed, step.after, step.turn);
  }

  /** A finished turn passes on exactly the deltas it is owed, once each and in log order, of the
      log without the gap; nothing of the gap, and nothing of any other turn. */
  lemma {:induction false} TurnExact(world: World, step: Step, codec: Codec)
    requires Faithful(codec) && Inv(world) && step.Turned? && Possible(world, step, codec)
    requires TurnOf(world, step, codec).progress.Done?
    ensures var turned := TurnOf(world, step, codec);
            var delivered := world.logs[step.thread] + step.before + step.after;
            && Ends(delivered, step.turn)
            && turned.deltas == Owed(delivered, step.turn)
            && Verdict(FirstCompletion(delivered, step.turn).payload, turned.progress.status)
            && turned.progress.last == FirstCompletion(delivered, step.turn).seqNo
  {
    SentToClient(world, step, codec);
    SentIsDelivered(world, step, codec);
  }

  lemma {:induction false} SameFirstCompletion(one: seq<Entry>, other: seq<Entry>, back: seq<Entry>, turn: string)
    requires Ends(one, turn) == Ends(other, turn)
    requires Ends(one, turn) ==> FirstCompletion(one, turn) == FirstCompletion(other, turn)
    requires Ends(one + back, turn)
    ensures Ends(other + back, turn) && FirstCompletion(one + back, turn) == FirstCompletion(other + back, turn)
  {
    OwedAppend(one, back, turn);
    OwedAppend(other, back, turn);
    if !Ends(one, turn) {
      CompletionBehind(one, back, turn);
      CompletionBehind(other, back, turn);
    }
  }

  lemma {:induction false} CompletionLater(first: Entry, rest: seq<Entry>, turn: string)
    requires !Completes(first, turn) && Ends(rest, turn)
    ensures Ends([first] + rest, turn) && FirstCompletion([first] + rest, turn) == FirstCompletion(rest, turn)
  {
    assert ([first] + rest)[1..] == rest;
    EndsLater([first] + rest, turn);
  }

  lemma {:induction false} CompletionBehind(front: seq<Entry>, back: seq<Entry>, turn: string)
    requires !Ends(front, turn) && Ends(back, turn)
    ensures Ends(front + back, turn) && FirstCompletion(front + back, turn) == FirstCompletion(back, turn)
    decreases |front|
  {
    if front == [] {
      assert front + back == back;
    } else {
      NotYet(front, turn);
      CompletionBehind(front[1..], back, turn);
      CompletionLater(front[0], front[1..] + back, turn);
      EntriesSplit(front, back);
    }
  }

  lemma {:induction false} NotYet(log: seq<Entry>, turn: string)
    requires log != [] && !Ends(log, turn)
    ensures !Completes(log[0], turn) && !Ends(log[1..], turn)
  {
    assert !Completes(log[0], turn);
    EndsLater(log, turn);
  }

  lemma {:induction false} EntriesSplit(front: seq<Entry>, back: seq<Entry>)
    requires front != []
    ensures front + back == [front[0]] + (front[1..] + back)
  {
  }

  predicate CompletesOnce(log: seq<Entry>, turn: string) {
    forall i, j :: 0 <= i < j < |log| ==> !(Completes(log[i], turn) && Completes(log[j], turn))
  }

  /** What a gap between the entries before it and those behind it takes nothing from: a turn that
      has ended by then, or one whose gap holds no delta. (A gap with a completion of its own would
      have to owe what is owed behind it.) */
  predicate Spares(front: seq<Entry>, gap: seq<Entry>, back: seq<Entry>, turn: string) {
    Ends(front, turn) || if Ends(gap, turn) then Owed(gap, turn) == Owed(back, turn) else DeltasOf(gap, turn) == []
  }

  lemma {:induction false} GapMatters(front: seq<Entry>, gap: seq<Entry>, back: seq<Entry>, turn: string)
    ensures Owed(front + back, turn) == Owed(front + (gap + back), turn) <==> Spares(front, gap, back, turn)
  {
    OwedAppend(front, back, turn);
    OwedAppend(front, gap + back, turn);
    OwedAppend(gap, back, turn);
    if !Ends(front, turn) {
      if Ends(gap, turn) { SamePrefix(DeltasOf(front, turn), Owed(back, turn), Owed(gap, turn)); }
      else { LengthsTell(DeltasOf(front, turn), DeltasOf(gap, turn), Owed(back, turn)); }
    }
  }

  lemma {:induction false} SamePrefix(a: seq<string>, b: seq<string>, c: seq<string>)
    ensures a + b == a + c <==> b == c
  {
    assert (a + b)[|a|..] == b && (a + c)[|a|..] == c;
  }

  lemma {:induction false} TwoCompletions(front: seq<Entry>, gap: seq<Entry>, back: seq<Entry>, turn: string)
    requires Ends(gap, turn) && Ends(back, turn)
    ensures !CompletesOnce(front + (gap + back), turn)
  {
    var i :| 0 <= i < |gap| && Completes(gap[i], turn);
    var j :| 0 <= j < |back| && Completes(back[j], turn);
    var whole := front + (gap + back);
    assert whole[|front| + i] == gap[i] && whole[|front| + |gap| + j] == back[j];
  }

  /** On a log that completes a turn once, a turn that has ended outside the gap is spared exactly
      when it has ended before the gap or has no delta in it. */
  lemma {:induction false} SparesOnce(front: seq<Entry>, gap: seq<Entry>, back: seq<Entry>, turn: string)
    requires CompletesOnce(front + (gap + back), turn) && Ends(front + back, turn)
    ensures Spares(front, gap, back, turn) <==> Ends(front, turn) || DeltasOf(gap, turn) == []
  {
    OwedAppend(front, back, turn);
    if Ends(gap, turn) && Ends(back, turn) { TwoCompletions(front, gap, back, turn); }
  }

  lemma {:induction false} LengthsTell(a: seq<string>, g: seq<string>, b: seq<string>)
    ensures a + b == a + (g + b) <==> g == []
  {
    assert |a + (g + b)| == |a + b| + |g|;
    if g == [] { assert g + b == b; }
  }

  /** What the replay of a step's backlog could draw on. */
  function Replayed(world: World, step: Step): seq<Entry>
    requires step.Turned? && step.thread in world.logs
  {
    world.logs[step.thread] + step.before
  }

  /** The client got every delta logged for the turn before its first completion. */
  predicate InFull(world: World, step: Step, codec: Codec)
    requires step.Turned? && step.thread in world.logs
  {
    TurnOf(world, step, codec).deltas == Owed(LogAfter(world, step), step.turn)
  }

  predicate GapSpares(world: World, step: Step)
    requires step.Turned? && step.thread in world.logs
  {
    Spares(Replayed(world, step), step.gap, step.after, step.turn)
  }

  predicate NothingInGap(world: World, step: Step)
    requires step.Turned? && step.thread in world.logs
  {
    Ends(Replayed(world, step), step.turn) || DeltasOf(step.gap, step.turn) == []
  }

  /** A finished turn has reached its client in full exactly when the gap spares it; on a log that
      completes the turn once, exactly when the turn had ended before the backlog was read or none
      of its deltas was logged between that and the subscription. */
  lemma {:induction false} GapLosesExactly(world: World, step: Step, codec: Codec)
    requires Faithful(codec) && Inv(world) && step.Turned? && Possible(world, step, codec)
    requires TurnOf(world, step, codec).progress.Done?
    ensures InFull(world, step, codec) <==> GapSpares(world, step)
    ensures CompletesOnce(LogAfter(world, step), step.turn) ==> (InFull(world, step, codec) <==> NothingInGap(world, step))
  {
    TurnExact(world, step, codec);
    GapMatters(Replayed(world, step), step.gap, step.after, step.turn);
    if CompletesOnce(LogAfter(world, step), step.turn) { SparesOnce(Replayed(world, step), step.gap, step.after, step.turn); }
  }

  const LOST := Entry(1, Some("t"), "item.delta", Payload(Some("agent_message"), Some("hi"), None, None))
  const END := Entry(2, Some("t"), "turn.completed", Payload(None, None, None, None))

  /** The runtime can lose a delta: one entry logged in the gap never reaches the client of a
      turn that is nonetheless reported complete. */
  lemma {:induction false} GapCanLose(codec: Codec) returns (world: World, step: Step)
    requires Faithful(codec) && |Print(Event("turn.completed", codec.encode(EnvelopeOf(END))))| <= MAX_FRAME
    ensures Inv(world) && step.Turned? && Possible(world, step, codec)
    ensures TurnOf(world, step, codec).progress.Done?
    ensures TurnOf(world, step, codec).deltas == [] && Owed(LogAfter(world, step), step.turn) == ["hi"]
  {
    var items := [Event("turn.completed", codec.encode(EnvelopeOf(END)))];
    var wire := PrintAll(items);
    ExampleCarried(codec, items);
    ExamplePrinted(items);
    ExampleLog();
    ExampleRead(codec, items);
    OwedOfExample();
    world := World(map["thread" := 0], map["thread" := []]);
    step := Turned("thread", "t", [], [LOST], [END], items, [wire]);
    assert LogAfter(world, step) == [LOST, END] && Sent(world, step) == [END];
    assert TurnOf(world, step, codec) == Stream([wire], "", "t", codec, 0);
  }

  lemma {:induction false} ExampleCarried(codec: Codec, items: seq<Item>)
    requires items == [Event("turn.completed", codec.encode(EnvelopeOf(END)))]
    ensures Carries(items, [END], codec)
  {
    assert items[1..] == [] && [END][1..] == [];
  }

  lemma {:induction false} ExampleLog()
    ensures GoodLog([LOST, END]) && Printed([END])
  {
    GoodName("item.delta");
    GoodName("turn.completed");
  }

  lemma {:induction false} GoodName(name: string)
    requires name == "item.delta" || name == "turn.completed"
    ensures Trimmed(name) && OneLine(name)
  {
  }

  lemma {:induction false} ExamplePrinted(items: seq<Item>)
    requires |items| == 1
    ensures PrintAll(items) == Print(items[0]) && Flatten([PrintAll(items)]) == PrintAll(items)
  {
    assert items[1..] == [] && PrintAll([]) == "" && Print(items[0]) + "" == Print(items[0]);
    assert Flatten([]) == "" && [PrintAll(items)][1..] == [] && PrintAll(items) + "" == PrintAll(items);
  }

  lemma {:induction false} ExampleRead(codec: Codec, items: seq<Item>)
    requires Faithful(codec) && items == [Event("turn.completed", codec.encode(EnvelopeOf(END)))]
    requires |Print(items[0])| <= MAX_FRAME
    ensures var turned := Stream([PrintAll(items)], "", "t", codec, 0); turned.progress.Done? && turned.deltas == Owed([END], "t")
  {
    var wire := PrintAll(items);
    ExampleCarried(codec, items);
    ExamplePrinted(items);
    ExampleLog();
    ShortStreamsStayWithinLimit([wire], "");
    assert Ends([END], "t") by { assert Completes([END][0], "t"); }
    WireToClient(items, [END], [wire], "t", codec, 0, 2);
    CompletionArrives(items, [END], [wire], "t", codec, 0, 2);
  }

  lemma {:induction false} OwedOfExample()
    ensures Owed([END], "t") == [] && Owed([LOST, END], "t") == ["hi"]
  {
    assert Completes(END, "t") && !Completes(LOST, "t") && Said(LOST, "t") == ["hi"];
    assert [LOST, END][1..] == [END];
  }

  /** The position saved after a turn is that of its completion, so the next replay starts behind
      it; a turn that does not finish leaves the position as it was. */
  lemma {:induction false} PositionIsCompletion(world: World, step: Step, codec: Codec)
    requires Faithful(codec) && Inv(world) && step.Turned? && Possible(world, step, codec)
    ensures var progress, now := TurnOf(world, step, codec).progress, Next(world, step, codec).lastSeq;
            var delivered := world.logs[step.thread] + step.before + step.after;
            if !progress.Done? then now == world.lastSeq
            else
              && Ends(delivered, step.turn)
              && now == world.lastSeq[step.thread := FirstCompletion(delivered, step.turn).seqNo]
  {
    if TurnOf(world, step, codec).progress.Done? { TurnExact(world, step, codec); }
  }

  // ---- Turns that break off ----

  lemma {:induction false} OwedOfPrefix(log: seq<Entry>, m: nat, turn: string)
    requires m <= |log|
    ensures Owed(log[..m], turn) <= Owed(log, turn)
  {
    assert log == log[..m] + log[m..];
    OwedAppend(log[..m], log[m..], turn);
  }

  lemma {:induction false} SentOwesDelivered(world: World, step: Step, codec: Codec)
    requires Inv(world) && step.Turned? && Possible(world, step, codec)
    ensures Owed(Sent(world, step), step.turn) == Owed(Replayed(world, step) + step.after, step.turn)
  {
    var since, replayed := Since(world.lastSeq, step.thread), Replayed(world, step);
    NewEntriesAreBeyond(world, step, codec);
    BeyondKeepsTurn(replayed, since, step.turn);
    OwedAppend(Beyond(replayed, since), step.after, step.turn);
    OwedAppend(replayed, step.after, step.turn);
  }

  lemma {:induction false} WireToPrefix(items: seq<Item>, log: seq<Entry>, chunks: seq<string>, turn: string, codec: Codec, since: nat, bound: nat)
    requires Faithful(codec) && Carries(items, log, codec) && Flatten(chunks) <= PrintAll(items)
    requires Printed(log) && since <= bound && forall i :: 0 <= i < |log| ==> log[i].seqNo <= bound
    ensures Stream(chunks, "", turn, codec, since).deltas <= Owed(log, turn)
  {
    var m := MessagesReceived(items, log, chunks, codec);
    StreamHasPrefix(chunks, "", turn, codec, since);
    ConsumeEntries(log[..m], turn, codec, since, bound);
    OwedOfPrefix(log, m, turn);
  }

  /** A turn, whether it finishes or breaks off anywhere, has passed on a first part of what it owes
      and nothing else. */
  lemma {:induction false} TurnIsPrefix(world: World, step: Step, codec: Codec)
    requires Faithful(codec) && Inv(world) && step.Turned? && Possible(world, step, codec)
    ensures TurnOf(world, step, codec).deltas <= Owed(Replayed(world, step) + step.after, step.turn)
  {
    SentWell(world, step, codec);
    SentPassesOn(world, step, codec);
    SentOwesDelivered(world, step, codec);
  }

  // ---- Over a whole run ----

  predicate Leads(world: World, step: Step, next: World, codec: Codec) {
    Possible(world, step, codec) && next == Next(world, step, codec)
  }

  predicate Run(worlds: seq<World>, steps: seq<Step>, codec: Codec) {
    && |worlds| == |steps| + 1
    && forall i :: 0 <= i < |steps| ==> Leads(worlds[i], steps[i], worlds[i + 1], codec)
  }

  lemma {:induction false} LeadsKeepsInv(world: World, step: Step, next: World, codec: Codec)
    requires Faithful(codec) && Inv(world) && Leads(world, step, next, codec)
    ensures Inv(next) && NoneMovedBack(world.lastSeq, next.lastSeq)
  {
    InvNext(world, step, codec);
  }

  /** The invariant holds at every point of every run. */
  lemma {:induction false} RunKeepsInv(worlds: seq<World>, steps: seq<Step>, codec: Codec, n: nat)
    requires Faithful(codec) && Run(worlds, steps, codec) && Inv(worlds[0]) && n <= |steps|
    ensures Inv(worlds[n])
    decreases n
  {
    if n > 0 {
      RunKeepsInv(worlds, steps, codec, n - 1);
      LeadsKeepsInv(worlds[n - 1], steps[n - 1], worlds[n], codec);
    }
  }

  lemma {:induction false} StepMovesOn(worlds: seq<World>, steps: seq<Step>, codec: Codec, n: nat)
    requires Faithful(codec) && Run(worlds, steps, codec) && Inv(worlds[0]) && n < |steps|
    ensures NoneMovedBack(worlds[n].lastSeq, worlds[n + 1].lastSeq)
  {
    RunKeepsInv(worlds, steps, codec, n);
    LeadsKeepsInv(worlds[n], steps[n], worlds[n + 1], codec);
  }

  /** In every run, no saved position ever moves back between two points, also across failed
      turns. */
  lemma {:induction false} RunKeepsPositions(worlds: seq<World>, steps: seq<Step>, codec: Codec, m: nat, n: nat)
    requires Faithful(codec) && Run(worlds, steps, codec) && Inv(worlds[0]) && m <= n <= |steps|
    ensures NoneMovedBack(worlds[m].lastSeq, worlds[n].lastSeq)
  {
    forall i | m <= i < n ensures NextMovesOn(worlds, i) { StepMovesOn(worlds, steps, codec, i); }
    AllMoveOn(worlds, m, n);
  }

  ghost predicate NextMovesOn(worlds: seq<World>, i: nat) {
    i + 1 < |worlds| && NoneMovedBack(worlds[i].lastSeq, worlds[i + 1].lastSeq)
  }

  lemma {:induction false} AllMoveOn(worlds: seq<World>, m: nat, n: nat)
    requires m <= n < |worlds| && forall i :: m <= i < n ==> NextMovesOn(worlds, i)
    ensures NoneMovedBack(worlds[m].lastSeq, worlds[n].lastSeq)
    decreases n
  {
    if m < n {
      AllMoveOn(worlds, m, n - 1);
      assert NextMovesOn(worlds, n - 1);
      PositionsMoveOn(worlds[m].lastSeq, worlds[n - 1].lastSeq, worlds[n].lastSeq);
    }
  }

  /** In every run of the bridge, every turn that finishes has passed on exactly what it owed,
      if and only if the gap between replay and subscription spared it. */
  lemma {:induction false} EveryTurnExact(worlds: seq<World>, steps: seq<Step>, codec: Codec, n: nat)
    requires Faithful(codec) && Run(worlds, steps, codec) && Inv(worlds[0])
    requires n < |steps| && steps[n].Turned? && TurnOf(worlds[n], steps[n], codec).progress.Done?
    ensures steps[n].thread in worlds[n].logs
    ensures InFull(worlds[n], steps[n], codec) <==> GapSpares(worlds[n], steps[n])
    ensures CompletesOnce(LogAfter(worlds[n], steps[n]), steps[n].turn) ==>
              (InFull(worlds[n], steps[n], codec) <==> NothingInGap(worlds[n], steps[n]))
  {
    RunKeepsInv(worlds, steps, codec, n);
    assert Leads(worlds[n], steps[n], worlds[n + 1], codec);
    GapLosesExactly(worlds[n], steps[n], codec);
  }
}
