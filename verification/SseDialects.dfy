/** Server-sent events in either line ending: frames of arbitrary field lines, with LF or with CRLF
    throughout (section 9.2.5 of the HTML Standard), are read as the last event name and all data
    lines say, however the network cuts them (crates/app-server/src/lib.rs). */
module SseDialects {
  import opened Options
  import opened Text
  import opened SseFraming
  import opened SseMessages

  /** A field line as a server may write it, with or without a space behind the colon. */
  datatype Field = EventLine(value: string) | DataLine(value: string) | OtherLine(text: string)

  function Line(field: Field): string {
    match field
    case EventLine(value) => "event:" + value
    case DataLine(value) => "data:" + value
    case OtherLine(text) => text
  }

  predicate Fine(field: Field) {
    && OneLine(Line(field)) && Line(field) != ""
    && (field.OtherLine? ==> !("event:" <= field.text) && !("data:" <= field.text))
  }

  predicate AllFine(fields: seq<Field>) {
    forall i :: 0 <= i < |fields| ==> Fine(fields[i])
  }

  function LinesOf(fields: seq<Field>): (r: seq<string>)
    ensures |r| == |fields| && forall i :: 0 <= i < |r| ==> r[i] == Line(fields[i])
  {
    if fields == [] then [] else [Line(fields[0])] + LinesOf(fields[1..])
  }

  // ---- What a frame says ----

  function EventsIn(fields: seq<Field>): seq<string> {
    if fields == [] then [] else (if fields[0].EventLine? then [fields[0].value] else []) + EventsIn(fields[1..])
  }

  function DataIn(fields: seq<Field>): seq<string> {
    if fields == [] then [] else (if fields[0].DataLine? then [fields[0].value] else []) + DataIn(fields[1..])
  }

  /** The last event name without white space around it, and the data lines, each without white
      space in front, joined by line feeds; nothing without a name, and nothing without data. */
  function Says(fields: seq<Field>): Option<Message> {
    var names, data := EventsIn(fields), DataIn(fields);
    if names == [] || data == [] then None
    else Some(Message(Trim(names[|names| - 1]), Join(StartTrimmed(data), "\n")))
  }

  function SaysAll(frames: seq<seq<Field>>): seq<Message> {
    if frames == [] then []
    else (if Says(frames[0]).Some? then [Says(frames[0]).value] else []) + SaysAll(frames[1..])
  }

  // ---- Printing ----

  /** Lines as they stand before their line feed. */
  function Marked(lines: seq<string>, crlf: bool): (r: seq<string>)
    ensures |r| == |lines| && forall i :: 0 <= i < |r| ==> r[i] == lines[i] + (if crlf then "\r" else "")
  {
    if lines == [] then [] else [lines[0] + if crlf then "\r" else ""] + Marked(lines[1..], crlf)
  }

  function PrintFrame(fields: seq<Field>, crlf: bool): string {
    Unlines(Marked(LinesOf(fields) + [""], crlf))
  }

  function PrintFrames(frames: seq<seq<Field>>, crlf: bool): string {
    if frames == [] then "" else PrintFrame(frames[0], crlf) + PrintFrames(frames[1..], crlf)
  }

  function PrintEach(frames: seq<seq<Field>>, crlf: bool): seq<string> {
    if frames == [] then [] else [PrintFrame(frames[0], crlf)] + PrintEach(frames[1..], crlf)
  }

  predicate Sound(frames: seq<seq<Field>>) {
    forall i :: 0 <= i < |frames| ==> frames[i] != [] && AllFine(frames[i])
  }

  // ---- Reading the lines of a frame ----

  lemma {:induction false} TrimsMark(line: string, crlf: bool)
    requires OneLine(line)
    ensures TrimEndChar(line + (if crlf then "\r" else ""), '\r') == line
  {
    KeepLine(line);
    if crlf { assert (line + "\r")[..|line|] == line; } else { assert line + "" == line; }
  }

  lemma {:induction false} TakeMarked(fields: Fields, line: string, crlf: bool)
    requires OneLine(line)
    ensures TakeLine(fields, line + if crlf then "\r" else "") == TakeLine(fields, line)
  {
    TrimsMark(line, crlf);
    KeepLine(line);
  }

  lemma {:induction false} TakeAllMarked(fields: Fields, lines: seq<string>, crlf: bool)
    requires forall i :: 0 <= i < |lines| ==> OneLine(lines[i])
    ensures TakeLines(fields, Marked(lines, crlf)) == TakeLines(fields, lines)
    decreases |lines|
  {
    if lines != [] {
      TakeMarked(fields, lines[0], crlf);
      TakeAllMarked(TakeLine(fields, lines[0]), lines[1..], crlf);
      TakeLinesCons(fields, Marked(lines, crlf)[0], Marked(lines[1..], crlf));
    }
  }

  predicate NoFeeds(lines: seq<string>) {
    forall i :: 0 <= i < |lines| ==> '\n' !in lines[i]
  }

  lemma {:induction false} LinesOfUnlined(lines: seq<string>)
    requires NoFeeds(lines)
    ensures Lines(Unlines(lines)) == lines
  {
    if lines != [] {
      LinesOfUnlined(lines[1..]);
      LinesCons(lines[0], Unlines(lines[1..]));
      assert lines == [lines[0]] + lines[1..];
    }
  }

  function Heard(fields: Fields, field: Field): Fields {
    match field
    case EventLine(value) => fields.(event := Some(Trim(value)))
    case DataLine(value) => fields.(data := fields.data + [TrimStart(value)])
    case OtherLine(_) => fields
  }

  lemma {:induction false} TakeField(fields: Fields, field: Field)
    requires Fine(field)
    ensures TakeLine(fields, Line(field)) == Heard(fields, field)
  {
    KeepLine(Line(field));
    match field {
      case EventLine(value) => assert Line(field)[6..] == value;
      case DataLine(value) =>
        assert Line(field)[5..] == value && Line(field)[0] == 'd' && "event:"[0] == 'e';
      case OtherLine(_) =>
    }
  }

  function LastOr(names: seq<string>, before: Option<string>): Option<string> {
    if names == [] then before else Some(Trim(names[|names| - 1]))
  }

  /** What has been taken from some lines on top of what there was. */
  function Gathered(fields: Fields, said: seq<Field>): Fields {
    Fields(LastOr(EventsIn(said), fields.event), fields.data + StartTrimmed(DataIn(said)))
  }

  lemma {:induction false} GatheredCons(fields: Fields, head: Field, rest: seq<Field>)
    ensures Gathered(fields, [head] + rest) == Gathered(Heard(fields, head), rest)
  {
    assert ([head] + rest)[1..] == rest;
    var names, data := EventsIn(rest), DataIn(rest);
    match head {
      case EventLine(value) =>
        LastOrCons(value, names, fields.event);
        assert [] + data == data;
      case DataLine(value) =>
        TrimmedCons(value, data);
        Regrouped(fields.data, TrimStart(value), StartTrimmed(data));
        assert [] + names == names;
      case OtherLine(_) =>
        assert [] + data == data && [] + names == names;
    }
  }

  lemma {:induction false} LastOrCons(name: string, names: seq<string>, before: Option<string>)
    ensures LastOr([name] + names, before) == LastOr(names, Some(Trim(name)))
  {
    if names != [] { assert ([name] + names)[|names|] == names[|names| - 1]; }
  }

  lemma {:induction false} TrimmedCons(value: string, data: seq<string>)
    ensures StartTrimmed([value] + data) == [TrimStart(value)] + StartTrimmed(data)
  {
    assert ([value] + data)[1..] == data;
  }

  lemma {:induction false} TakeFields(fields: Fields, said: seq<Field>)
    requires AllFine(said)
    ensures TakeLines(fields, LinesOf(said)) == Gathered(fields, said)
    decreases |said|
  {
    if said == [] {
      assert fields.data + [] == fields.data;
    } else {
      TakeField(fields, said[0]);
      TakeLinesCons(fields, Line(said[0]), LinesOf(said[1..]));
      TakeFields(Heard(fields, said[0]), said[1..]);
      GatheredCons(fields, said[0], said[1..]);
      assert said == [said[0]] + said[1..];
    }
  }

  lemma {:induction false} LinesTaken(fields: seq<Field>, crlf: bool)
    requires AllFine(fields)
    ensures TakeLines(Fields(None, []), Marked(LinesOf(fields) + [""], crlf)) == TakeLines(Fields(None, []), LinesOf(fields))
  {
    FieldLinesFine(fields);
    TakeAllMarked(Fields(None, []), LinesOf(fields) + [""], crlf);
    TakeLinesAppend(Fields(None, []), LinesOf(fields), [""]);
    TakeBlankLine(TakeLines(Fields(None, []), LinesOf(fields)));
  }

  lemma {:induction false} MarkedHasNoFeed(lines: seq<string>, crlf: bool)
    requires NoFeeds(lines)
    ensures NoFeeds(Marked(lines, crlf))
  {
  }

  lemma {:induction false} GatheredSays(fields: seq<Field>)
    ensures Finish(Gathered(Fields(None, []), fields)) == Says(fields)
  {
    assert [] + StartTrimmed(DataIn(fields)) == StartTrimmed(DataIn(fields));
  }

  /** Either way of ending lines, a frame is read as what it says. */
  lemma {:induction false} FrameIsRead(fields: seq<Field>, crlf: bool)
    requires AllFine(fields)
    ensures ParseFrame(PrintFrame(fields, crlf)) == Says(fields)
  {
    var lines := LinesOf(fields) + [""];
    FieldLinesFine(fields);
    MarkedHasNoFeed(lines, crlf);
    LinesOfUnlined(Marked(lines, crlf));
    LinesTaken(fields, crlf);
    TakeFields(Fields(None, []), fields);
    GatheredSays(fields);
  }

  // ---- Frames on the wire ----

  /** In a CRLF text every line feed follows a carriage return. */
  predicate FeedsFollowReturns(s: string) {
    forall i :: 0 <= i < |s| && s[i] == '\n' ==> i > 0 && s[i - 1] == '\r'
  }

  lemma {:induction false} NoDoubleFeed(s: string)
    requires FeedsFollowReturns(s)
    ensures !Occurs(s, LF2)
  {
    forall i: nat ensures !OccursAt(s, LF2, i) {
      if i + 2 <= |s| { assert s[i..i + 2][0] == s[i] && s[i..i + 2][1] == s[i + 1]; }
    }
  }

  lemma {:induction false} UnlinedFollow(lines: seq<string>)
    requires forall i :: 0 <= i < |lines| ==> OneLine(lines[i])
    ensures FeedsFollowReturns(Unlines(Marked(lines, true)))
  {
    if lines != [] {
      var rest := Unlines(Marked(lines[1..], true));
      UnlinedFollow(lines[1..]);
      FollowJoins(lines[0] + "\r" + "\n", rest);
      assert Marked(lines, true)[1..] == Marked(lines[1..], true);
    }
  }

  lemma {:induction false} FollowJoins(front: string, back: string)
    requires FeedsFollowReturns(front) && FeedsFollowReturns(back)
    ensures FeedsFollowReturns(front + back)
  {
    var s := front + back;
    forall i | 0 <= i < |s| && s[i] == '\n' ensures i > 0 && s[i - 1] == '\r' {
      if i >= |front| { assert s[i] == back[i - |front|]; }
    }
  }

  lemma {:induction false} FieldLinesFine(fields: seq<Field>)
    requires AllFine(fields)
    ensures LinesOk(LinesOf(fields))
    ensures forall i :: 0 <= i <= |fields| ==> OneLine((LinesOf(fields) + [""])[i])
  {
  }

  lemma {:induction false} PrintedFollow(frames: seq<seq<Field>>)
    requires Sound(frames)
    ensures FeedsFollowReturns(PrintFrames(frames, true))
  {
    if frames != [] {
      FieldLinesFine(frames[0]);
      UnlinedFollow(LinesOf(frames[0]) + [""]);
      PrintedFollow(frames[1..]);
      FollowJoins(PrintFrame(frames[0], true), PrintFrames(frames[1..], true));
    }
  }

  lemma {:induction false} UnlinesSnoc(lines: seq<string>, last: string)
    ensures Unlines(lines + [last]) == Unlines(lines) + (last + "\n")
  {
    if lines == [] {
      assert [last][1..] == [] && [] + [last] == [last] && Unlines([]) == "" && last + "\n" + "" == "" + (last + "\n");
    } else {
      assert (lines + [last])[1..] == lines[1..] + [last];
      UnlinesSnoc(lines[1..], last);
      Associative(lines[0] + "\n", Unlines(lines[1..]), last + "\n");
    }
  }

  lemma {:induction false} PlainMarks(lines: seq<string>)
    ensures Marked(lines, false) == lines
  {
    forall i | 0 <= i < |lines| ensures Marked(lines, false)[i] == lines[i] { assert lines[i] + "" == lines[i]; }
  }

  lemma {:induction false} MarkedSnoc(lines: seq<string>, crlf: bool)
    ensures Marked(lines + [""], crlf) == Marked(lines, crlf) + [if crlf then "\r" else ""]
  {
    assert "" + "\r" == "\r" && "" + "" == "";
  }

  lemma {:induction false} LfFrame(fields: seq<Field>)
    requires AllFine(fields)
    ensures PrintFrame(fields, false) == Unlines(LinesOf(fields)) + "\n"
  {
    PlainMarks(LinesOf(fields) + [""]);
    UnlinesSnoc(LinesOf(fields), "");
    assert "" + "\n" == "\n";
  }

  lemma {:induction false} NoReturns(frames: seq<seq<Field>>)
    requires Sound(frames)
    ensures '\r' !in PrintFrames(frames, false)
  {
    if frames != [] {
      FieldLinesFine(frames[0]);
      LfFrame(frames[0]);
      NoBlankLineInside(LinesOf(frames[0]));
      NoReturns(frames[1..]);
    }
  }

  /** CRLF lines that are not empty: a carriage return is followed by a line feed and a line that
      is not empty, or by the end. */
  predicate LinesGoOn(s: string) {
    && (s != "" ==> s[0] != '\r')
    && forall i :: 0 <= i < |s| && s[i] == '\r' ==> i + 1 < |s| && (i + 2 < |s| ==> s[i + 2] != '\r')
  }

  lemma {:induction false} UnlinedGoOn(lines: seq<string>)
    requires LinesOk(lines)
    ensures LinesGoOn(Unlines(Marked(lines, true)))
  {
    if lines != [] {
      var head, rest := lines[0] + "\r" + "\n", Unlines(Marked(lines[1..], true));
      UnlinedGoOn(lines[1..]);
      assert Marked(lines, true)[1..] == Marked(lines[1..], true);
      var s := head + rest;
      forall i | 0 <= i < |s| && s[i] == '\r' ensures i + 1 < |s| && (i + 2 < |s| ==> s[i + 2] != '\r') {
        if i >= |head| { assert s[i] == rest[i - |head|]; } else { assert i == |lines[0]|; }
      }
      assert s[0] == lines[0][0];
    }
  }

  /** The first blank CRLF line is the one that ends the frame. */
  lemma {:induction false} CrlfCut(lines: seq<string>, rest: string)
    requires LinesOk(lines) && lines != []
    ensures var u := Unlines(Marked(lines, true));
            |u| >= 2 && CutPoint(u + "\r\n" + rest) == Some(|u| + 2)
  {
    var u := Unlines(Marked(lines, true));
    var s, at := u + "\r\n" + rest, |u| - 2;
    UnlinedGoOn(lines);
    EndsInCrlf(lines);
    assert s[at..at + 4] == CRLF2;
    forall j: nat | j < at ensures !OccursAt(s, CRLF2, j) {
      assert s[j] == u[j] && s[j + 2] == if j + 2 < |u| then u[j + 2] else '\r';
      assert j + 2 < |u|;
      assert s[j..j + 4][0] == s[j] && s[j..j + 4][2] == s[j + 2];
    }
    FindIs(s, CRLF2, at);
  }

  lemma {:induction false} EndsInCrlf(lines: seq<string>)
    requires LinesOk(lines) && lines != []
    ensures var u := Unlines(Marked(lines, true)); |u| >= 3 && u[|u| - 2..] == "\r\n"
  {
    var front, last := lines[..|lines| - 1], lines[|lines| - 1];
    assert lines == front + [last];
    assert Marked(lines, true) == Marked(front, true) + [last + "\r"];
    UnlinesSnoc(Marked(front, true), last + "\r");
  }

  lemma {:induction false} CutAfterFrame(fields: seq<Field>, crlf: bool, rest: string)
    requires fields != [] && AllFine(fields) && (!crlf ==> '\r' !in rest)
    ensures CutPoint(PrintFrame(fields, crlf) + rest) == Some(|PrintFrame(fields, crlf)|)
  {
    var lines := LinesOf(fields);
    FieldLinesFine(fields);
    if crlf {
      MarkedSnoc(lines, true);
      UnlinesSnoc(Marked(lines, true), "\r");
      assert "\r" + "\n" == "\r\n";
      CrlfCut(lines, rest);
    } else {
      LfFrame(fields);
      CutAfterLines(lines, rest);
    }
  }

  lemma {:induction false} DrainFrames(frames: seq<seq<Field>>, crlf: bool)
    requires Sound(frames)
    ensures Drain(PrintFrames(frames, crlf)) == Drained(PrintEach(frames, crlf), "")
  {
    if frames == [] {
      DrainEmpty();
    } else {
      var head, rest := PrintFrame(frames[0], crlf), PrintFrames(frames[1..], crlf);
      DrainFrames(frames[1..], crlf);
      if !crlf { NoReturns(frames[1..]); }
      CutAfterFrame(frames[0], crlf, rest);
      assert (head + rest)[..|head|] == head && (head + rest)[|head|..] == rest;
      DrainStep(head + rest, |head|);
    }
  }

  lemma {:induction false} ReceivedFrames(frames: seq<seq<Field>>, crlf: bool)
    requires Sound(frames)
    ensures Received(PrintEach(frames, crlf)) == SaysAll(frames)
  {
    if frames != [] {
      FrameIsRead(frames[0], crlf);
      ReceivedFrames(frames[1..], crlf);
      assert PrintEach(frames, crlf)[1..] == PrintEach(frames[1..], crlf);
    }
  }

  /** Print any frames of field lines, in any order and number, with LF or with CRLF throughout, and
      cut the text anywhere: what is read is what they say, in order, with nothing left. */
  lemma {:induction false} FramesAreRead(frames: seq<seq<Field>>, crlf: bool, chunks: seq<string>)
    requires Sound(frames) && Flatten(chunks) == PrintFrames(frames, crlf)
    ensures Feed(chunks, "").rest == "" && Received(Feed(chunks, "").frames) == SaysAll(frames)
  {
    var text := PrintFrames(frames, crlf);
    if crlf {
      PrintedFollow(frames);
      NoDoubleFeed(text);
    } else {
      NoReturns(frames);
      NoCrlf(text);
    }
    OneDelimiterIsNotMixed(text);
    ChunkIndependentIff(text);
    DrainFrames(frames, crlf);
    ReceivedFrames(frames, crlf);
  }
}
