/** The fields of one frame (parse_sse_frame in crates/app-server/src/lib.rs), and the way back:
    whatever is printed as server-sent events is read again, however the network cuts it. */
module SseMessages {
  import opened Options
  import opened Text
  import opened SseFraming

  datatype Message = Message(event: string, data: string)

  datatype Fields = Fields(event: Option<string>, data: seq<string>)

  // ---- Reading ----

  function LineEnd(text: string): (n: nat)
    ensures n <= |text| && (n < |text| ==> text[n] == '\n') && '\n' !in text[..n]
  {
    if text == [] || text[0] == '\n' then 0
    else
      var n := 1 + LineEnd(text[1..]);
      assert text[..n] == [text[0]] + text[1..][..n - 1];
      n
  }

  /** str::lines, up to the carriage returns that the caller strips from every line anyway. */
  function Lines(text: string): seq<string>
    decreases |text|
  {
    if text == [] then []
    else
      var n := LineEnd(text);
      [text[..n]] + Lines(if n < |text| then text[n + 1..] else [])
  }

  function TakeLine(fields: Fields, raw: string): Fields {
    var line := TrimEndChar(raw, '\r');
    match StripPrefix(line, "event:")
    case Some(value) => fields.(event := Some(Trim(value)))
    case None =>
      match StripPrefix(line, "data:")
      case Some(value) => fields.(data := fields.data + [TrimStart(value)])
      case None => fields
  }

  function TakeLines(fields: Fields, lines: seq<string>): Fields
    decreases |lines|
  {
    if lines == [] then fields else TakeLines(TakeLine(fields, lines[0]), lines[1..])
  }

  function Finish(fields: Fields): Option<Message> {
    if fields.event.Some? && fields.data != [] then Some(Message(fields.event.value, Join(fields.data, "\n"))) else None
  }

  function ParseFrame(text: string): Option<Message> {
    Finish(TakeLines(Fields(None, []), Lines(text)))
  }

  /** parse_sse_frame: one pass over the lines with two accumulators. */
  method ParseSseFrame(text: string) returns (message: Option<Message>)
    ensures message == ParseFrame(text)
  {
    var event: Option<string> := None;
    var data: seq<string> := [];
    var lines := Lines(text);
    for i := 0 to |lines|
      invariant TakeLines(Fields(event, data), lines[i..]) == TakeLines(Fields(None, []), lines)
    {
      assert lines[i..][1..] == lines[i + 1..];
      var line := TrimEndChar(lines[i], '\r');
      var value := StripPrefix(line, "event:");
      if value.Some? {
        event := Some(Trim(value.value));
      } else {
        value := StripPrefix(line, "data:");
        if value.Some? {
          data := data + [TrimStart(value.value)];
        }
      }
    }
    if event.Some? && data != [] {
      message := Some(Message(event.value, Join(data, "\n")));
    } else {
      message := None;
    }
  }

  /** The messages of a frame list; a frame without an event name or data is skipped. */
  function Received(frames: seq<string>): seq<Message> {
    if frames == [] then [] else ReceivedOne(frames[0]) + Received(frames[1..])
  }

  function ReceivedOne(frame: string): seq<Message> {
    match ParseFrame(frame)
    case Some(message) => [message]
    case None => []
  }

  // ---- Printing ----

  /** What a server puts on the wire: events, and the comments that keep a connection alive. */
  datatype Item = Event(name: string, data: seq<string>) | Comment(text: string)

  predicate Printable(item: Item) {
    match item
    case Event(name, data) => OneLine(name) && data != [] && forall i :: 0 <= i < |data| ==> OneLine(data[i])
    case Comment(text) => OneLine(text)
  }

  predicate AllPrintable(items: seq<Item>) {
    forall i :: 0 <= i < |items| ==> Printable(items[i])
  }

  function DataLines(data: seq<string>): seq<string> {
    if data == [] then [] else ["data: " + data[0]] + DataLines(data[1..])
  }

  function ItemLines(item: Item): seq<string> {
    match item
    case Event(name, data) => ["event: " + name] + DataLines(data)
    case Comment(text) => [":" + text]
  }

  function Unlines(lines: seq<string>): string {
    if lines == [] then "" else lines[0] + "\n" + Unlines(lines[1..])
  }

  function Print(item: Item): string {
    Unlines(ItemLines(item)) + "\n"
  }

  function PrintAll(items: seq<Item>): string {
    if items == [] then "" else Print(items[0]) + PrintAll(items[1..])
  }

  function Prints(items: seq<Item>): (r: seq<string>)
    ensures |r| == |items|
  {
    if items == [] then [] else [Print(items[0])] + Prints(items[1..])
  }

  // ---- A printed item is one frame ----

  predicate LinesOk(lines: seq<string>) {
    forall i :: 0 <= i < |lines| ==> lines[i] != [] && OneLine(lines[i])
  }

  lemma {:induction false} ItemLinesOk(item: Item)
    requires Printable(item)
    ensures LinesOk(ItemLines(item)) && ItemLines(item) != []
  {
    if item.Event? { DataLinesOk(item.data); }
  }

  lemma {:induction false} DataLinesOk(data: seq<string>)
    requires forall i :: 0 <= i < |data| ==> OneLine(data[i])
    ensures LinesOk(DataLines(data))
  {
    if data != [] {
      DataLinesOk(data[1..]);
    }
  }

  /** Non-empty lines, each ended by one line feed, never show two line feeds in a row. */
  lemma {:induction false} NoBlankLineInside(lines: seq<string>)
    requires LinesOk(lines) && lines != []
    ensures var u := Unlines(lines);
            && |u| >= 2 && u[0] != '\n' && u[|u| - 1] == '\n' && '\r' !in u
            && forall j :: 0 <= j < |u| - 1 ==> !(u[j] == '\n' && u[j + 1] == '\n')
  {
    var head, u := lines[0] + "\n", Unlines(lines);
    if |lines| == 1 {
      assert Unlines(lines[1..]) == "" && u == head;
    } else {
      NoBlankLineInside(lines[1..]);
      var tail := Unlines(lines[1..]);
      assert u == head + tail;
      forall j | 0 <= j < |u| - 1 ensures !(u[j] == '\n' && u[j + 1] == '\n') {
        if j >= |head| { assert u[j] == tail[j - |head|] && u[j + 1] == tail[j + 1 - |head|]; }
        else if j == |head| - 1 { assert u[j + 1] == tail[0]; }
        else { assert u[j] == lines[0][j]; }
      }
    }
  }

  lemma {:induction false} FirstBlankLine(lines: seq<string>, rest: string)
    requires LinesOk(lines) && lines != []
    ensures Find(Unlines(lines) + "\n" + rest, LF2) == Some(|Unlines(lines)| - 1)
  {
    NoBlankLineInside(lines);
    var u := Unlines(lines);
    var s, at := u + "\n" + rest, |u| - 1;
    assert s[at] == u[at] && s[at + 1] == '\n';
    assert s[at..at + 2] == LF2;
    forall j: nat | j < at ensures !OccursAt(s, LF2, j) {
      assert s[j] == u[j] && s[j + 1] == u[j + 1];
      assert s[j..j + 2] == [s[j], s[j + 1]];
    }
    FindIs(s, LF2, at);
  }

  lemma {:induction false} NoCarriageReturn(items: seq<Item>)
    requires AllPrintable(items)
    ensures '\r' !in PrintAll(items)
  {
    if items != [] {
      ItemLinesOk(items[0]);
      NoBlankLineInside(ItemLines(items[0]));
      NoCarriageReturn(items[1..]);
    }
  }

  lemma {:induction false} NoCrlf(s: string)
    requires '\r' !in s
    ensures !Occurs(s, CRLF2)
  {
    forall i: nat ensures !OccursAt(s, CRLF2, i) {
      if i + 4 <= |s| { assert s[i..i + 4][0] == s[i]; }
    }
  }

  lemma {:induction false} CutAfterItem(item: Item, rest: string)
    requires Printable(item) && '\r' !in rest
    ensures CutPoint(Print(item) + rest) == Some(|Print(item)|)
  {
    ItemLinesOk(item);
    CutAfterLines(ItemLines(item), rest);
  }

  lemma {:induction false} CutAfterLines(lines: seq<string>, rest: string)
    requires LinesOk(lines) && lines != [] && '\r' !in rest
    ensures CutPoint(Unlines(lines) + "\n" + rest) == Some(|Unlines(lines)| + 1)
  {
    NoBlankLineInside(lines);
    NoCrlf(Unlines(lines) + "\n" + rest);
    FirstBlankLine(lines, rest);
  }

  /** Draining everything printed gives back one frame an item. */
  lemma {:induction false} DrainPrinted(items: seq<Item>)
    requires AllPrintable(items)
    ensures Drain(PrintAll(items)) == Drained(Prints(items), "")
  {
    if items == [] {
      DrainEmpty();
    } else {
      NoCarriageReturn(items[1..]);
      DrainPrinted(items[1..]);
      PrintedStep(items[0], PrintAll(items[1..]));
    }
  }

  lemma {:induction false} PrintedStep(item: Item, rest: string)
    requires Printable(item) && '\r' !in rest
    ensures Drain(Print(item) + rest) == Drained([Print(item)] + Drain(rest).frames, Drain(rest).rest)
  {
    CutAfterItem(item, rest);
    var head, whole := Print(item), Print(item) + rest;
    assert whole[..|head|] == head && whole[|head|..] == rest;
    DrainStep(whole, |head|);
  }

  // ---- What a printed item is read as ----

  lemma {:induction false} LinesCons(line: string, rest: string)
    requires '\n' !in line
    ensures Lines(line + "\n" + rest) == [line] + Lines(rest)
  {
    var text := line + "\n" + rest;
    var n := LineEnd(text);
    assert text[|line|] == '\n';
    assert forall k :: 0 <= k < |line| ==> text[k] == line[k];
    assert forall k :: 0 <= k < n ==> text[..n][k] == text[k];
    assert text[..n] == line && text[n + 1..] == rest;
  }

  lemma {:induction false} UnlinesCons(lines: seq<string>, rest: string)
    requires lines != []
    ensures Unlines(lines) + rest == lines[0] + "\n" + (Unlines(lines[1..]) + rest)
  {
    Associative(lines[0] + "\n", Unlines(lines[1..]), rest);
  }

  lemma {:induction false} LinesOfUnlines(lines: seq<string>, rest: string)
    requires LinesOk(lines)
    ensures Lines(Unlines(lines) + rest) == lines + Lines(rest)
  {
    if lines == [] {
      assert "" + rest == rest && lines + Lines(rest) == Lines(rest);
    } else {
      UnlinesCons(lines, rest);
      LinesCons(lines[0], Unlines(lines[1..]) + rest);
      LinesOfUnlines(lines[1..], rest);
      SplitHead(lines, Lines(rest));
    }
  }

  lemma {:induction false} SplitHead(front: seq<string>, back: seq<string>)
    requires front != []
    ensures [front[0]] + (front[1..] + back) == front + back
  {
  }

  lemma {:induction false} TakeLinesAppend(fields: Fields, front: seq<string>, back: seq<string>)
    ensures TakeLines(fields, front + back) == TakeLines(TakeLines(fields, front), back)
    decreases |front|
  {
    if front == [] {
      assert front + back == back;
    } else {
      assert (front + back)[1..] == front[1..] + back;
      TakeLinesAppend(TakeLine(fields, front[0]), front[1..], back);
    }
  }

  lemma {:induction false} KeepLine(line: string)
    requires OneLine(line)
    ensures TrimEndChar(line, '\r') == line
  {
  }

  function StartTrimmed(data: seq<string>): (r: seq<string>)
    ensures |r| == |data| && forall i :: 0 <= i < |r| ==> r[i] == TrimStart(data[i])
  {
    if data == [] then [] else [TrimStart(data[0])] + StartTrimmed(data[1..])
  }

  lemma {:induction false} TakeDataLine(fields: Fields, value: string)
    requires OneLine(value)
    ensures TakeLine(fields, "data: " + value) == fields.(data := fields.data + [TrimStart(value)])
  {
    var line := "data: " + value;
    KeepLine(line);
    assert line[0] == 'd' && "event:"[0] == 'e';
    assert line[..5] == "data:" && line[5..] == " " + value;
    assert (" " + value)[1..] == value;
  }

  lemma {:induction false} TakeDataLines(event: Option<string>, taken: seq<string>, data: seq<string>)
    requires forall i :: 0 <= i < |data| ==> OneLine(data[i])
    ensures TakeLines(Fields(event, taken), DataLines(data)) == Fields(event, taken + StartTrimmed(data))
    decreases |data|
  {
    if data == [] {
      assert taken + [] == taken;
    } else {
      TakeOneDataLine(event, taken, data[0], DataLines(data[1..]));
      TakeDataLines(event, taken + [TrimStart(data[0])], data[1..]);
      Regrouped(taken, TrimStart(data[0]), StartTrimmed(data[1..]));
    }
  }

  lemma {:induction false} Regrouped(front: seq<string>, s: string, back: seq<string>)
    ensures (front + [s]) + back == front + ([s] + back)
  {
  }

  lemma {:induction false} TakeOneDataLine(event: Option<string>, taken: seq<string>, value: string, rest: seq<string>)
    requires OneLine(value)
    ensures TakeLines(Fields(event, taken), ["data: " + value] + rest) == TakeLines(Fields(event, taken + [TrimStart(value)]), rest)
  {
    TakeDataLine(Fields(event, taken), value);
    TakeLinesCons(Fields(event, taken), "data: " + value, rest);
  }

  lemma {:induction false} TakeLinesCons(fields: Fields, line: string, rest: seq<string>)
    ensures TakeLines(fields, [line] + rest) == TakeLines(TakeLine(fields, line), rest)
  {
    assert ([line] + rest)[1..] == rest;
  }

  lemma {:induction false} TakeEventLine(fields: Fields, name: string)
    requires OneLine(name)
    ensures TakeLine(fields, "event: " + name) == fields.(event := Some(Trim(name)))
  {
    var line := "event: " + name;
    KeepLine(line);
    assert line[..6] == "event:" && line[6..] == " " + name;
    assert (" " + name)[1..] == name;
  }

  /** What the reader makes of an item: name and data lines without outer whitespace. */
  function Delivered(item: Item): Option<Message> {
    match item
    case Event(name, data) => Some(Message(Trim(name), Join(StartTrimmed(data), "\n")))
    case Comment(_) => None
  }

  /** The blank line that ends a frame changes nothing. */
  lemma {:induction false} ParsedLines(item: Item)
    requires Printable(item)
    ensures ParseFrame(Print(item)) == Finish(TakeLines(Fields(None, []), ItemLines(item)))
  {
    ItemLinesOk(item);
    LinesOfUnlines(ItemLines(item), "\n");
    assert Lines("\n") == [""] by {
      LinesCons("", "");
      assert "" + "\n" + "" == "\n";
      assert [""] + Lines("") == [""];
    }
    TakeLinesAppend(Fields(None, []), ItemLines(item), [""]);
    TakeBlankLine(TakeLines(Fields(None, []), ItemLines(item)));
  }

  lemma {:induction false} TakeBlankLine(fields: Fields)
    ensures TakeLines(fields, [""]) == fields
  {
    assert TakeLine(fields, "") == fields;
  }

  lemma {:induction false} TakeComment(fields: Fields, text: string)
    requires OneLine(text)
    ensures TakeLine(fields, ":" + text) == fields
  {
    KeepLine(":" + text);
    assert (":" + text)[0] == ':';
  }

  lemma {:induction false} ParsePrinted(item: Item)
    requires Printable(item)
    ensures ParseFrame(Print(item)) == Delivered(item)
  {
    var none := Fields(None, []);
    ParsedLines(item);
    match item {
      case Event(name, data) =>
        TakeLinesCons(none, "event: " + name, DataLines(data));
        TakeEventLine(none, name);
        TakeDataLines(Some(Trim(name)), [], data);
        assert [] + StartTrimmed(data) == StartTrimmed(data);
      case Comment(text) =>
        TakeComment(none, text);
        assert ItemLines(item) == [":" + text] + [];
        TakeLinesCons(none, ":" + text, []);
    }
  }

  function DeliveredAll(items: seq<Item>): seq<Message> {
    if items == [] then []
    else (match Delivered(items[0]) case Some(m) => [m] case None => []) + DeliveredAll(items[1..])
  }

  lemma {:induction false} ReceivedPrinted(items: seq<Item>)
    requires AllPrintable(items)
    ensures Received(Prints(items)) == DeliveredAll(items)
  {
    if items != [] {
      ParsePrinted(items[0]);
      ReceivedPrinted(items[1..]);
      assert Prints(items)[1..] == Prints(items[1..]);
    }
  }

  /** Print any list of items, cut the text anywhere: the buffer ends empty and the messages
      read are those of the items, in order, comments skipped. */
  lemma {:induction false} RoundTrip(items: seq<Item>, chunks: seq<string>)
    requires AllPrintable(items) && Flatten(chunks) == PrintAll(items)
    ensures Feed(chunks, "").rest == ""
    ensures Received(Feed(chunks, "").frames) == DeliveredAll(items)
  {
    NoCarriageReturn(items);
    NoCrlf(PrintAll(items));
    OneDelimiterIsNotMixed(PrintAll(items));
    ChunkIndependentIff(PrintAll(items));
    DrainPrinted(items);
    ReceivedPrinted(items);
  }

  // ---- When the message read is the one sent ----

  lemma {:induction false} TrimStartShortens(s: string)
    ensures |TrimStart(s)| <= |s|
    ensures |TrimStart(s)| == |s| <==> NoLeadingSpace(s)
    ensures NoLeadingSpace(TrimStart(s))
  {
    if s != [] && IsSpace(s[0]) { TrimStartShortens(s[1..]); }
  }

  lemma {:induction false} TrimEndShortens(s: string)
    ensures |TrimEnd(s)| <= |s|
    ensures |TrimEnd(s)| == |s| <==> s == [] || !IsSpace(s[|s| - 1])
  {
    if s != [] && IsSpace(s[|s| - 1]) { TrimEndShortens(s[..|s| - 1]); }
  }

  lemma {:induction false} TrimKeepsIff(s: string)
    ensures Trim(s) == s <==> Trimmed(s)
  {
    TrimStartShortens(s);
    TrimEndShortens(TrimStart(s));
  }

  lemma {:induction false} JoinShortens(data: seq<string>)
    requires data != []
    ensures |Join(StartTrimmed(data), "\n")| <= |Join(data, "\n")|
    ensures Join(StartTrimmed(data), "\n") == Join(data, "\n") <==> forall i :: 0 <= i < |data| ==> NoLeadingSpace(data[i])
  {
    TrimStartShortens(data[0]);
    if |data| == 1 {
      assert Join(data, "\n") == data[0] && Join(StartTrimmed(data), "\n") == TrimStart(data[0]);
    } else {
      var kept, cut := data[1..], StartTrimmed(data)[1..];
      assert cut == StartTrimmed(kept);
      JoinShortens(kept);
      var a, b := Join(cut, "\n"), Join(kept, "\n");
      assert Join(data, "\n") == data[0] + "\n" + b;
      assert Join(StartTrimmed(data), "\n") == TrimStart(data[0]) + "\n" + a;
      if Join(StartTrimmed(data), "\n") == Join(data, "\n") {
        assert |TrimStart(data[0])| == |data[0]| && |a| == |b|;
        assert a == Join(StartTrimmed(data), "\n")[|data[0]| + 1..] == Join(data, "\n")[|data[0]| + 1..] == b;
        forall i | 0 <= i < |data| ensures NoLeadingSpace(data[i]) { if i > 0 { assert data[i] == kept[i - 1]; } }
      }
      if forall i :: 0 <= i < |data| ==> NoLeadingSpace(data[i]) {
        forall i | 0 <= i < |kept| ensures NoLeadingSpace(kept[i]) { assert kept[i] == data[i + 1]; }
        assert NoLeadingSpace(data[0]);
      }
    }
  }

  /** The message read back is exactly the one printed if and only if the name has no outer
      whitespace and no data line begins with any (the standard would strip one space only). */
  lemma {:induction false} ExactIff(name: string, data: seq<string>)
    requires Printable(Event(name, data))
    ensures ParseFrame(Print(Event(name, data))) == Some(Message(name, Join(data, "\n")))
       <==> Trimmed(name) && forall i :: 0 <= i < |data| ==> NoLeadingSpace(data[i])
  {
    ParsePrinted(Event(name, data));
    TrimKeepsIff(name);
    JoinShortens(data);
  }

  /** For instance two spaces in front of a data line are lost, where only one is the separator. */
  lemma {:induction false} SpacesAreLost()
    ensures ParseFrame(Print(Event("delta", ["  x"]))) == Some(Message("delta", "x"))
  {
    PlainEvent();
    OneLineDelivered("delta", "  x");
    SpacesTrimmed();
  }

  lemma {:induction false} PlainEvent()
    ensures Printable(Event("delta", ["  x"])) && Trimmed("delta")
  {
  }

  lemma {:induction false} OneLineDelivered(name: string, line: string)
    requires Printable(Event(name, [line])) && Trimmed(name)
    ensures ParseFrame(Print(Event(name, [line]))) == Some(Message(name, TrimStart(line)))
  {
    ParsePrinted(Event(name, [line]));
    TrimKeepsIff(name);
    assert StartTrimmed([line]) == [TrimStart(line)];
  }

  lemma {:induction false} SpacesTrimmed()
    ensures TrimStart("  x") == "x"
  {
    assert "  x"[1..] == " x" && " x"[1..] == "x" && TrimStart("x") == "x" && TrimStart(" x") == "x";
  }
}
