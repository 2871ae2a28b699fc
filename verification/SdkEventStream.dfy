/** The event-stream reader of npm/runtime-sdk/index.js: it grows a text buffer chunk by chunk,
    cuts it at every LFLF, and parses what is left at the end as a last frame. */
module SdkEventStream {
  import opened Options
  import opened Text
  import opened SseFraming
  import opened SseDialects

  // ---- One frame ----

  /** split(/\r?\n/): a carriage return goes with the line feed that follows it. */
  function SplitLines(text: string): seq<string>
    decreases |text|
  {
    var at := Find(text, "\n");
    if at.None? then [text]
    else
      var line := text[..at.value];
      [if line != [] && line[|line| - 1] == '\r' then line[..|line| - 1] else line] + SplitLines(text[at.value + 1..])
  }

  function DataLines(lines: seq<string>): seq<string> {
    if lines == [] then []
    else
      (match StripPrefix(lines[0], "data:") case Some(value) => [ScriptTrimStart(value)] case None => []) + DataLines(lines[1..])
  }

  /** parseSseFrame up to JSON.parse; nothing for a frame without data and for the end marker. */
  function FrameData(frame: string): Option<string> {
    var data := Join(DataLines(SplitLines(frame)), "\n");
    if data == "" || data == "[DONE]" then None else Some(data)
  }

  // ---- All frames ----

  /** What a consumer sees: the events yielded, and whether JSON.parse threw after them. */
  datatype Outcome = Outcome(events: seq<string>, threw: bool)

  function Yield(frames: seq<string>, isJson: string -> bool): Outcome {
    if frames == [] then Outcome([], false)
    else match FrameData(frames[0])
      case None => Yield(frames[1..], isJson)
      case Some(data) =>
        if !isJson(data) then Outcome([], true)
        else
          var later := Yield(frames[1..], isJson);
          Outcome([data] + later.events, later.threw)
  }

  /** The leftmost split of a text at LFLF, the last piece being what no LFLF follows. */
  function Pieces(text: string): (r: seq<string>)
    ensures r != []
    decreases |text|
  {
    var at := Find(text, LF2);
    if at.None? then [text] else [text[..at.value]] + Pieces(text[at.value + 2..])
  }

  // ---- One frame, as it is written ----

  /** The lines of a frame up to the blank line behind it. */
  function FrameText(fields: seq<Field>, crlf: bool): string {
    Join(LinesOf(fields), if crlf then "\r\n" else "\n")
  }

  function StartsTrimmed(data: seq<string>): (r: seq<string>)
    ensures |r| == |data| && forall i :: 0 <= i < |r| ==> r[i] == ScriptTrimStart(data[i])
  {
    if data == [] then [] else [ScriptTrimStart(data[0])] + StartsTrimmed(data[1..])
  }

  lemma {:induction false} SplitCons(line: string, rest: string, crlf: bool)
    requires OneLine(line)
    ensures SplitLines(line + (if crlf then "\r\n" else "\n") + rest) == [line] + SplitLines(rest)
  {
    var marked := line + if crlf then "\r" else "";
    var text := marked + "\n" + rest;
    assert text == line + (if crlf then "\r\n" else "\n") + rest;
    assert text[|marked|..|marked| + 1] == "\n";
    forall j: nat | j < |marked| ensures !OccursAt(text, "\n", j) {
      assert text[j] == marked[j] && marked[j] != '\n';
      StartsWithFirst(text, "\n", j);
    }
    FindIs(text, "\n", |marked|);
    assert text[..|marked|] == marked && text[|marked| + 1..] == rest;
    if crlf { assert marked[..|marked| - 1] == line; } else { assert marked == line; }
  }

  lemma {:induction false} SplitLast(line: string)
    requires OneLine(line)
    ensures SplitLines(line) == [line]
  {
    forall j: nat ensures !OccursAt(line, "\n", j) { StartsWithFirst(line, "\n", j); }
  }

  lemma {:induction false} SplitJoined(lines: seq<string>, crlf: bool)
    requires lines != [] && forall i :: 0 <= i < |lines| ==> OneLine(lines[i])
    ensures SplitLines(Join(lines, if crlf then "\r\n" else "\n")) == lines
  {
    if |lines| == 1 {
      SplitLast(lines[0]);
    } else {
      SplitJoined(lines[1..], crlf);
      SplitCons(lines[0], Join(lines[1..], if crlf then "\r\n" else "\n"), crlf);
      assert lines == [lines[0]] + lines[1..];
    }
  }

  lemma {:induction false} DataOfFields(fields: seq<Field>)
    requires AllFine(fields)
    ensures DataLines(LinesOf(fields)) == StartsTrimmed(DataIn(fields))
  {
    if fields != [] {
      var line, rest := Line(fields[0]), fields[1..];
      DataOfFields(rest);
      assert LinesOf(fields)[1..] == LinesOf(rest);
      DataOfOne(fields[0]);
      match fields[0] {
        case DataLine(value) => assert ([value] + DataIn(rest))[1..] == DataIn(rest);
        case _ => assert [] + DataIn(rest) == DataIn(rest) && [] + DataLines(LinesOf(rest)) == DataLines(LinesOf(rest));
      }
    }
  }

  lemma {:induction false} DataOfOne(field: Field)
    requires Fine(field)
    ensures StripPrefix(Line(field), "data:") == if field.DataLine? then Some(field.value) else None
  {
    match field {
      case EventLine(value) => assert Line(field)[0] == 'e' && "data:"[0] == 'd';
      case DataLine(value) => assert Line(field)[5..] == value;
      case OtherLine(_) =>
    }
  }

  /** A frame of field lines, ended either way, comes to its data lines, each without white space in
      front, joined by line feeds; to nothing if that is empty or the end marker. */
  lemma {:induction false} FrameIsParsed(fields: seq<Field>, crlf: bool)
    requires fields != [] && AllFine(fields)
    ensures var data := Join(StartsTrimmed(DataIn(fields)), "\n");
            FrameData(FrameText(fields, crlf)) == if data != "" && data != "[DONE]" then Some(data) else None
  {
    FieldLinesFine(fields);
    SplitJoined(LinesOf(fields), crlf);
    DataOfFields(fields);
  }

  /** With CRLF line ends, which section 9.2.5 of the HTML Standard allows, no frame ever ends. */
  lemma {:induction false} CrlfStreamIsOneFrame(frames: seq<seq<Field>>)
    requires Sound(frames)
    ensures Pieces(PrintFrames(frames, true)) == [PrintFrames(frames, true)]
  {
    PrintedFollow(frames);
    NoDoubleFeed(PrintFrames(frames, true));
  }

  /** All that frames come to, whether it decodes or not. */
  function Datas(frames: seq<string>): seq<string> {
    if frames == [] then []
    else (match FrameData(frames[0]) case Some(data) => [data] case None => []) + Datas(frames[1..])
  }

  /** A first part of what there is, up to the first that does not decode; it throws on that one. */
  predicate UpToBad(outcome: Outcome, all: seq<string>, isJson: string -> bool) {
    && outcome.events <= all && (forall i :: 0 <= i < |outcome.events| ==> isJson(outcome.events[i]))
    && (outcome.threw <==> |outcome.events| < |all|)
    && (outcome.threw ==> !isJson(all[|outcome.events|]))
  }

  lemma {:induction false} UpToBadCons(data: string, outcome: Outcome, all: seq<string>, isJson: string -> bool)
    requires UpToBad(outcome, all, isJson) && isJson(data)
    ensures UpToBad(Before([data], outcome), [data] + all, isJson)
  {
    var events := [data] + outcome.events;
    forall i | 0 <= i < |events| ensures isJson(events[i]) {
      if i > 0 { assert events[i] == outcome.events[i - 1]; }
    }
  }

  /** The consumer gets what the frames come to, in order, up to the first that does not decode. */
  lemma {:induction false} YieldsUpToBad(frames: seq<string>, isJson: string -> bool)
    ensures UpToBad(Yield(frames, isJson), Datas(frames), isJson)
  {
    if frames != [] {
      var head, rest := frames[0], frames[1..];
      YieldsUpToBad(rest, isJson);
      assert frames == [head] + rest;
      YieldCons(head, rest, isJson);
      var data := FrameData(head);
      if data.None? {
        assert [] + Datas(rest) == Datas(rest);
      } else if isJson(data.value) {
        UpToBadCons(data.value, Yield(rest, isJson), Datas(rest), isJson);
      }
    }
  }

  // ---- The split, independently of how it is computed ----

  lemma {:induction false} PiecesJoin(text: string)
    ensures Join(Pieces(text), LF2) == text
    decreases |text|
  {
    var at := Find(text, LF2);
    if at.Some? {
      var head, rest := text[..at.value], text[at.value + 2..];
      PiecesJoin(rest);
      assert Pieces(text)[1..] == Pieces(rest);
      assert text == head + LF2 + rest;
    }
  }

  /** A piece followed by a line feed: if it held an LFLF, the cut would have come earlier. */
  predicate Leftmost(piece: string) {
    Find(piece + "\n", LF2).None?
  }

  predicate LeftmostSplit(pieces: seq<string>) {
    && pieces != [] && Find(pieces[|pieces| - 1], LF2).None?
    && forall i :: 0 <= i < |pieces| - 1 ==> Leftmost(pieces[i])
  }

  lemma {:induction false} LeftmostFound(piece: string, rest: string)
    requires Leftmost(piece)
    ensures Find(piece + LF2 + rest, LF2) == Some(|piece|)
  {
    var s, n := piece + LF2 + rest, |piece|;
    assert s[n..n + 2] == LF2;
    forall j: nat | j < n ensures !OccursAt(s, LF2, j) {
      assert s == (piece + "\n") + ("\n" + rest);
      OccursAtPrefix(piece + "\n", "\n" + rest, LF2, j);
      assert !Occurs(piece + "\n", LF2);
    }
    FindIs(s, LF2, n);
  }

  /** Joining and splitting are inverse on leftmost splits: there is only one for a text. */
  lemma {:induction false} PiecesOfJoin(pieces: seq<string>)
    requires LeftmostSplit(pieces)
    ensures Pieces(Join(pieces, LF2)) == pieces
  {
    if |pieces| > 1 {
      LeftmostTail(pieces);
      PiecesOfJoin(pieces[1..]);
      PiecesCut(pieces[0], Join(pieces[1..], LF2));
      assert pieces == [pieces[0]] + pieces[1..];
    }
  }

  lemma {:induction false} LeftmostTail(pieces: seq<string>)
    requires LeftmostSplit(pieces) && |pieces| > 1
    ensures Leftmost(pieces[0]) && LeftmostSplit(pieces[1..])
  {
    var rest := pieces[1..];
    assert rest[|rest| - 1] == pieces[|pieces| - 1];
    forall i | 0 <= i < |rest| - 1 ensures Leftmost(rest[i]) { assert rest[i] == pieces[i + 1]; }
  }

  lemma {:induction false} PiecesCut(piece: string, rest: string)
    requires Leftmost(piece)
    ensures Pieces(piece + LF2 + rest) == [piece] + Pieces(rest)
  {
    var text := piece + LF2 + rest;
    LeftmostFound(piece, rest);
    assert text[..|piece|] == piece && text[|piece| + 2..] == rest;
  }

  lemma {:induction false} PiecesAreLeftmost(text: string)
    ensures LeftmostSplit(Pieces(text))
    decreases |text|
  {
    var at := Find(text, LF2);
    if at.Some? {
      var head, rest := text[..at.value], text[at.value + 2..];
      PiecesAreLeftmost(rest);
      HeadIsLeftmost(text, at.value);
      var pieces := Pieces(text);
      assert pieces == [head] + Pieces(rest);
      assert pieces[|pieces| - 1] == Pieces(rest)[|Pieces(rest)| - 1];
      forall i | 0 <= i < |pieces| - 1 ensures Leftmost(pieces[i]) {
        if i > 0 { assert pieces[i] == Pieces(rest)[i - 1]; }
      }
    }
  }

  lemma {:induction false} HeadIsLeftmost(text: string, at: nat)
    requires Find(text, LF2) == Some(at)
    ensures at + 2 <= |text| && Leftmost(text[..at])
  {
    var head, rest := text[..at] + "\n", text[at + 1..];
    assert text[at] == text[at..at + 2][0] == '\n';
    assert text == head + rest;
    if Occurs(head, LF2) {
      FindInFront(head, rest, LF2);
    }
  }

  // ---- Chunks ----

  function Before(events: seq<string>, outcome: Outcome): Outcome {
    Outcome(events + outcome.events, outcome.threw)
  }

  lemma {:induction false} YieldStep(frame: string, frames: seq<string>, isJson: string -> bool, events: seq<string>, goal: Outcome)
    requires Before(events, Yield([frame] + frames, isJson)) == goal
    ensures match FrameData(frame)
            case None => Before(events, Yield(frames, isJson)) == goal
            case Some(data) =>
              if isJson(data) then Before(events + [data], Yield(frames, isJson)) == goal else goal == Outcome(events, true)
  {
    YieldCons(frame, frames, isJson);
    var data := FrameData(frame);
    if data.Some? { BeforeMore(events, data.value, Yield(frames, isJson)); }
  }

  lemma {:induction false} YieldCons(frame: string, frames: seq<string>, isJson: string -> bool)
    ensures Yield([frame] + frames, isJson)
         == match FrameData(frame)
            case None => Yield(frames, isJson)
            case Some(data) => if isJson(data) then Before([data], Yield(frames, isJson)) else Outcome([], true)
  {
    assert ([frame] + frames)[1..] == frames;
  }

  lemma {:induction false} BeforeMore(events: seq<string>, data: string, outcome: Outcome)
    ensures Before(events, Before([data], outcome)) == Before(events + [data], outcome)
    ensures Before(events, Outcome([], true)) == Outcome(events, true)
  {
    assert events + ([data] + outcome.events) == (events + [data]) + outcome.events && events + [] == events;
  }

  lemma {:induction false} PiecesStep(text: string, later: string)
    ensures var at := Find(text, LF2);
            at.Some? ==> Pieces(text + later) == [text[..at.value]] + Pieces(text[at.value + 2..] + later)
  {
    var at := Find(text, LF2);
    if at.Some? {
      FindInFront(text, later, LF2);
      assert (text + later)[..at.value] == text[..at.value] && (text + later)[at.value + 2..] == text[at.value + 2..] + later;
    }
  }

  /** parseEventStream. For every text and every way to cut it into chunks, the consumer sees the
      events of the leftmost split of the whole text, the remainder included, in order. */
  method ParseEventStream(chunks: seq<string>, isJson: string -> bool) returns (events: seq<string>, threw: bool)
    ensures Outcome(events, threw) == Yield(Pieces(Flatten(chunks)), isJson)
  {
    ghost var goal := Yield(Pieces(Flatten(chunks)), isJson);
    events, threw := [], false;
    var buffer := "";
    assert chunks[0..] == chunks && "" + Flatten(chunks) == Flatten(chunks) && Before([], goal) == goal;
    for i := 0 to |chunks|
      invariant !threw && Find(buffer, LF2).None?
      invariant Before(events, Yield(Pieces(buffer + Flatten(chunks[i..])), isJson)) == goal
    {
      ghost var later := Flatten(chunks[i + 1..]);
      assert chunks[i..][0] == chunks[i] && chunks[i..][1..] == chunks[i + 1..];
      Associative(buffer, chunks[i], later);
      buffer := buffer + chunks[i];
      var boundary := Find(buffer, LF2);
      while boundary.Some?
        invariant boundary == Find(buffer, LF2)
        invariant Before(events, Yield(Pieces(buffer + later), isJson)) == goal
        decreases |buffer|
      {
        var frame := buffer[..boundary.value];
        PiecesStep(buffer, later);
        buffer := buffer[boundary.value + 2..];
        YieldStep(frame, Pieces(buffer + later), isJson, events, goal);
        var data := FrameData(frame);
        if data.Some? {
          if !isJson(data.value) {
            return events, true;
          }
          events := events + [data.value];
        }
        boundary := Find(buffer, LF2);
      }
    }
    assert chunks[|chunks|..] == [] && buffer + "" == buffer;
    assert Pieces(buffer) == [buffer] + [];
    YieldStep(buffer, [], isJson, events, goal);
    var data := FrameData(buffer);
    if data.Some? {
      if !isJson(data.value) {
        return events, true;
      }
      events := events + [data.value];
    }
  }
}
