/** The HTML-to-text scanner of web/lib/content-watch.ts: markup becomes a space, script and style
    bodies go with their tags, and the rest is put into whitespace normal form. */
module HtmlStrip {
  import opened Text

  // ---- Markup ----

  predicate StartsWith(input: string, i: nat, needle: string) {
    i + |needle| <= |input| && Lower(input[i..i + |needle|]) == needle
  }

  predicate IsWhite(c: char) {
    c == ' ' || c == '\n' || c == '\r' || c == '\t' || c as int == 12
  }

  /** tagNameBoundary: the tag name ends here, or the input does. */
  predicate NameEnds(input: string, i: nat) {
    i < |input| ==> input[i] == '>' || input[i] == '/' || IsWhite(input[i])
  }

  predicate OpensRaw(input: string, i: nat, name: string) {
    StartsWith(input, i, "<" + name) && NameEnds(input, i + 1 + |name|)
  }

  predicate ClosesRaw(input: string, i: nat, name: string) {
    StartsWith(input, i, "</" + name) && NameEnds(input, i + 2 + |name|)
  }

  /** A tag's end as seen from a position inside it: past the first `>` from there on, or the end
      of an input that has none. */
  predicate EndsTag(input: string, from: nat, end: nat) {
    && from <= end <= |input|
    && (forall j :: from <= j < end - 1 ==> input[j] != '>')
    && (end == |input| || (from < end && input[end - 1] == '>'))
  }

  function PastBracket(input: string, from: nat): (r: nat)
    requires from <= |input|
    ensures EndsTag(input, from, r)
  {
    var at := FindFrom(input, ">", from);
    if at.Some? then
      NoneBefore(input, from, at.value);
      BracketAt(input, at.value);
      at.value + 1
    else
      NoneBefore(input, from, |input|);
      |input|
  }

  lemma {:induction false} BracketAt(input: string, j: nat)
    ensures OccursAt(input, ">", j) <==> j < |input| && input[j] == '>'
  {
    if j < |input| { assert input[j..j + 1] == [input[j]]; }
  }

  lemma {:induction false} NoneBefore(input: string, from: nat, to: nat)
    requires from <= to <= |input| && forall j: nat :: from <= j < to ==> !OccursAt(input, ">", j)
    ensures forall j :: from <= j < to ==> input[j] != '>'
  {
    forall j | from <= j < to ensures input[j] != '>' { BracketAt(input, j); }
  }

  lemma {:induction false} EndsTagOnce(input: string, from: nat, one: nat, other: nat)
    requires EndsTag(input, from, one) && EndsTag(input, from, other)
    ensures one == other
  {
  }

  /** Where a raw body that starts at a position ends: at the first tag that closes it, or at the
      end of an input that has none. */
  predicate EndsBody(input: string, from: nat, end: nat, name: string) {
    && from <= end <= |input|
    && (forall j :: from <= j < end ==> !ClosesRaw(input, j, name))
    && (end < |input| ==> ClosesRaw(input, end, name))
  }

  function BodyEnd(input: string, from: nat, name: string): (r: nat)
    requires from <= |input|
    ensures EndsBody(input, from, r, name)
    decreases |input| - from
  {
    if from == |input| || ClosesRaw(input, from, name) then from else BodyEnd(input, from + 1, name)
  }

  lemma {:induction false} EndsBodyOnce(input: string, from: nat, one: nat, other: nat, name: string)
    requires EndsBody(input, from, one, name) && EndsBody(input, from, other, name)
    ensures one == other
  {
  }

  /** The end of a closing tag that starts at a position, or the end of the input itself. */
  function PastCloser(input: string, i: nat, name: string): (r: nat)
    requires i <= |input| && (i < |input| ==> ClosesRaw(input, i, name))
    ensures i <= r <= |input|
  {
    if i == |input| then i else PastBracket(input, i + 2 + |name|)
  }

  function PastClosing(input: string, from: nat, name: string): (r: nat)
    requires from <= |input|
    ensures from <= r <= |input|
  {
    PastCloser(input, BodyEnd(input, from, name), name)
  }

  /** Raw text ends past the first tag that closes it if there is one, and with the input otherwise. */
  lemma {:induction false} PastClosingIsFirst(input: string, from: nat, name: string)
    requires from <= |input|
    ensures (forall i :: from <= i < |input| ==> !ClosesRaw(input, i, name)) ==> PastClosing(input, from, name) == |input|
    ensures forall i :: from <= i < |input| && ClosesRaw(input, i, name) && (forall j :: from <= j < i ==> !ClosesRaw(input, j, name)) ==>
              EndsTag(input, i + 2 + |name|, PastClosing(input, from, name))
  {
    var end := BodyEnd(input, from, name);
    forall i | from <= i < |input| && ClosesRaw(input, i, name) && (forall j :: from <= j < i ==> !ClosesRaw(input, j, name))
      ensures EndsTag(input, i + 2 + |name|, PastClosing(input, from, name))
    {
      EndsBodyOnce(input, from, i, end, name);
    }
  }

  // ---- Segments ----

  /** What the input is made of, by position: text characters, tags, and raw elements, each an
      opening tag, a body and a closing tag. */
  datatype Segment =
    | Plain(start: nat)
    | Tag(start: nat, end: nat)
    | Raw(name: string, start: nat, bodyAt: nat, closerAt: nat, end: nat)

  function End(segment: Segment): nat {
    if segment.Plain? then segment.start + 1 else segment.end
  }

  predicate OpensAnyRaw(input: string, i: nat) {
    OpensRaw(input, i, "script") || OpensRaw(input, i, "style")
  }

  /** A raw element; a body that nothing closes is the last thing of the input. */
  predicate IsElement(input: string, i: nat, bodyAt: nat, closerAt: nat, end: nat, name: string) {
    && (name == "script" || name == "style") && OpensRaw(input, i, name)
    && EndsTag(input, i + 1, bodyAt) && EndsBody(input, bodyAt, closerAt, name)
    && if closerAt == |input| then end == |input| else EndsTag(input, closerAt + 2 + |name|, end)
  }

  /** What may stand at a position: text that is no `<`; a tag up to its first `>`; a raw element
      up to the end of the first tag that closes it. Any of them may be cut off by the end. */
  predicate IsSegment(input: string, i: nat, segment: Segment) {
    && i < |input| && segment.start == i
    && match segment
       case Plain(_) => input[i] != '<'
       case Tag(_, end) => input[i] == '<' && !OpensAnyRaw(input, i) && EndsTag(input, i + 1, end)
       case Raw(name, _, bodyAt, closerAt, end) => IsElement(input, i, bodyAt, closerAt, end, name)
  }

  /** The segments account for the input from a position on, without gap or overlap. */
  predicate WellSegmented(input: string, i: nat, segments: seq<Segment>)
    decreases |segments|
  {
    if segments == [] then i == |input|
    else IsSegment(input, i, segments[0]) && WellSegmented(input, End(segments[0]), segments[1..])
  }

  /** The text outside tags and raw elements, with a space for each of these. */
  function Visible(input: string, segments: seq<Segment>): string {
    if segments == [] then "" else Shown(input, segments[0]) + Visible(input, segments[1..])
  }

  function Shown(input: string, segment: Segment): string {
    if segment.Plain? && segment.start < |input| then [input[segment.start]] else " "
  }

  function RawAt(input: string, i: nat, name: string): Segment
    requires i < |input|
  {
    var bodyAt := PastBracket(input, i + 1);
    var closerAt := BodyEnd(input, bodyAt, name);
    Raw(name, i, bodyAt, closerAt, PastCloser(input, closerAt, name))
  }

  function SegmentAt(input: string, i: nat): (r: Segment)
    requires i < |input|
    ensures i < End(r) <= |input|
  {
    if input[i] != '<' then Plain(i)
    else if OpensRaw(input, i, "script") then RawAt(input, i, "script")
    else if OpensRaw(input, i, "style") then RawAt(input, i, "style")
    else Tag(i, PastBracket(input, i + 1))
  }

  function Segments(input: string, i: nat): seq<Segment>
    requires i <= |input|
    decreases |input| - i
  {
    if i == |input| then [] else [SegmentAt(input, i)] + Segments(input, End(SegmentAt(input, i)))
  }

  lemma {:induction false} OneRawName(input: string, i: nat)
    ensures !(OpensRaw(input, i, "script") && OpensRaw(input, i, "style"))
    ensures i < |input| && OpensAnyRaw(input, i) ==> input[i] == '<'
  {
    if StartsWith(input, i, "<script") {
      LowerAt(input, i, "<script", 0);
      LowerAt(input, i, "<script", 2);
    }
    if StartsWith(input, i, "<style") {
      LowerAt(input, i, "<style", 0);
      LowerAt(input, i, "<style", 2);
    }
  }

  lemma {:induction false} LowerAt(input: string, i: nat, needle: string, k: nat)
    requires StartsWith(input, i, needle) && k < |needle|
    ensures LowerChar(input[i + k]) == needle[k]
  {
    assert input[i..i + |needle|][k] == input[i + k];
  }

  lemma {:induction false} StartsSpelled(input: string, i: nat, needle: string)
    requires Lower(needle) == needle
    ensures StartsWith(input, i, needle) <==>
              i + |needle| <= |input| && forall k :: 0 <= k < |needle| ==> SameLetter(input[i + k], needle[k])
  {
    if i + |needle| <= |input| {
      var part := input[i..i + |needle|];
      LowerTells(part, needle);
      assert forall k :: 0 <= k < |needle| ==> part[k] == input[i + k];
    }
  }

  lemma {:induction false} NameEndSpelled(input: string, i: nat)
    ensures NameEnds(input, i) <==> i >= |input| || input[i] in ">/ \n\r\t" || input[i] as int == 12
  {
  }

  /** Letter by letter: a raw element opens, and closes, with its whole name in any ASCII case, and
      the name ends there. */
  lemma {:induction false} RawTagSpelled(input: string, i: nat, name: string)
    requires name == "script" || name == "style"
    ensures OpensRaw(input, i, name) <==> SpellsTag(input, i, "<" + name)
    ensures ClosesRaw(input, i, name) <==> SpellsTag(input, i, "</" + name)
  {
    NameEndSpelled(input, i + 1 + |name|);
    NameEndSpelled(input, i + 2 + |name|);
    assert Lower("<script") == "<script" && Lower("</script") == "</script";
    assert Lower("<style") == "<style" && Lower("</style") == "</style";
    StartsSpelled(input, i, "<" + name);
    StartsSpelled(input, i, "</" + name);
  }

  predicate SpellsTag(input: string, i: nat, tag: string) {
    && i + |tag| <= |input| && (forall k :: 0 <= k < |tag| ==> SameLetter(input[i + k], tag[k]))
    && (i + |tag| == |input| || input[i + |tag|] in ">/ \n\r\t" || input[i + |tag|] as int == 12)
  }

  lemma {:induction false} SegmentAtIs(input: string, i: nat)
    requires i < |input|
    ensures IsSegment(input, i, SegmentAt(input, i))
  {
  }

  lemma {:induction false} RawOnce(input: string, i: nat, segment: Segment)
    requires segment.Raw? && IsSegment(input, i, segment)
    ensures segment == RawAt(input, i, segment.name)
  {
    EndsTagOnce(input, i + 1, segment.bodyAt, PastBracket(input, i + 1));
    EndsBodyOnce(input, segment.bodyAt, segment.closerAt, BodyEnd(input, segment.bodyAt, segment.name), segment.name);
    if segment.closerAt < |input| {
      var from := segment.closerAt + 2 + |segment.name|;
      EndsTagOnce(input, from, segment.end, PastBracket(input, from));
    }
  }

  lemma {:induction false} SegmentOnce(input: string, i: nat, segment: Segment)
    requires IsSegment(input, i, segment)
    ensures segment == SegmentAt(input, i)
  {
    OneRawName(input, i);
    match segment {
      case Plain(_) =>
      case Tag(_, end) => EndsTagOnce(input, i + 1, end, PastBracket(input, i + 1));
      case Raw(_, _, _, _, _) => RawOnce(input, i, segment);
    }
  }

  /** There is exactly one way to segment an input. */
  lemma {:induction false} SegmentsIff(input: string, i: nat, segments: seq<Segment>)
    requires i <= |input|
    ensures WellSegmented(input, i, segments) <==> segments == Segments(input, i)
    decreases |input| - i
  {
    if i < |input| && segments != [] {
      var first := SegmentAt(input, i);
      SegmentAtIs(input, i);
      SegmentsIff(input, End(first), segments[1..]);
      HeadAndTail(segments, first, Segments(input, End(first)));
      if IsSegment(input, i, segments[0]) { SegmentOnce(input, i, segments[0]); }
    }
  }

  lemma {:induction false} HeadAndTail(segments: seq<Segment>, first: Segment, rest: seq<Segment>)
    requires segments != []
    ensures segments == [first] + rest <==> segments[0] == first && segments[1..] == rest
  {
    assert segments == [segments[0]] + segments[1..] && ([first] + rest)[1..] == rest;
  }

  /** Nothing of the input is lost or made up: what the segments cover is the input, in order. */
  lemma {:induction false} SegmentsAreInput(input: string, i: nat, segments: seq<Segment>)
    requires i <= |input| && WellSegmented(input, i, segments)
    ensures Covered(input, segments) == input[i..]
    decreases |segments|
  {
    if segments != [] {
      SegmentsAreInput(input, End(segments[0]), segments[1..]);
      SplitInput(input, i, End(segments[0]));
    }
  }

  function Covered(input: string, segments: seq<Segment>): string {
    if segments == [] then ""
    else
      var from, to := segments[0].start, End(segments[0]);
      (if from <= to <= |input| then input[from..to] else "") + Covered(input, segments[1..])
  }

  lemma {:induction false} SplitInput(input: string, i: nat, next: nat)
    requires i <= next <= |input|
    ensures input[i..] == input[i..next] + input[next..]
  {
  }

  lemma {:induction false} VisibleHasNoBracket(input: string, i: nat, segments: seq<Segment>)
    requires WellSegmented(input, i, segments)
    ensures '<' !in Visible(input, segments)
    decreases |segments|
  {
    if segments != [] { VisibleHasNoBracket(input, End(segments[0]), segments[1..]); }
  }

  /** One character for each segment: its own for text, a space for a tag or a raw element, so that
      what stood on both sides of one stays apart. */
  lemma {:induction false} VisibleAt(input: string, i: nat, segments: seq<Segment>, k: nat)
    requires WellSegmented(input, i, segments) && k < |segments|
    ensures |Visible(input, segments)| == |segments|
    ensures match segments[k]
            case Plain(start) => start < |input| && Visible(input, segments)[k] == input[start]
            case _ => Visible(input, segments)[k] == ' '
    decreases |segments|
  {
    var rest := segments[1..];
    if k > 0 {
      VisibleAt(input, End(segments[0]), rest, k - 1);
    } else if rest != [] {
      VisibleAt(input, End(segments[0]), rest, 0);
    }
  }

  /** findClosingRawTextTag. */
  method FindClosingRawTextTag(input: string, from: nat, name: string) returns (end: nat)
    requires from <= |input|
    ensures end == PastClosing(input, from, name)
  {
    for i := from to |input|
      invariant forall j :: from <= j < i ==> !ClosesRaw(input, j, name)
    {
      if ClosesRaw(input, i, name) {
        EndsBodyOnce(input, from, i, BodyEnd(input, from, name), name);
        return PastBracket(input, i + 2 + |name|);
      }
    }
    EndsBodyOnce(input, from, |input|, BodyEnd(input, from, name), name);
    return |input|;
  }

  method FindRawEnd(input: string, i: nat, name: string) returns (end: nat)
    requires i < |input|
    ensures end == PastClosing(input, PastBracket(input, i + 1), name)
  {
    var openEnd := FindFrom(input, ">", i + 1);
    if openEnd.None? {
      return |input|;
    }
    end := FindClosingRawTextTag(input, openEnd.value + 1, name);
  }

  /** The branches of the scanning loop at a `<`. */
  method FindMarkupEnd(input: string, i: nat) returns (end: nat)
    requires i < |input| && input[i] == '<'
    ensures end == End(SegmentAt(input, i))
  {
    if OpensRaw(input, i, "script") {
      end := FindRawEnd(input, i, "script");
    } else if OpensRaw(input, i, "style") {
      end := FindRawEnd(input, i, "style");
    } else {
      end := PastBracket(input, i + 1);
    }
  }

  /** The scanning loop of stripHtmlForPrompt: however the input is segmented, text stays and
      every tag and raw element becomes one space. */
  method StripMarkup(input: string) returns (out: string)
    ensures out == Visible(input, Segments(input, 0))
    ensures forall segments :: WellSegmented(input, 0, segments) ==> out == Visible(input, segments)
  {
    out := "";
    var i := 0;
    ghost var whole := Visible(input, Segments(input, 0));
    assert "" + whole == whole;
    while i < |input|
      invariant 0 <= i <= |input|
      invariant LeadsTo(input, i, out, whole)
      decreases |input| - i
    {
      VisibleStep(input, i, out, whole);
      if input[i] != '<' {
        out := out + [input[i]];
        i := i + 1;
        continue;
      }
      out := out + " ";
      i := FindMarkupEnd(input, i);
    }
    AtTheEnd(input, out, whole);
    OnlyOneVisible(input);
  }

  lemma {:induction false} AtTheEnd(input: string, out: string, whole: string)
    requires LeadsTo(input, |input|, out, whole)
    ensures out == whole
  {
    assert out + "" == out;
  }

  lemma {:induction false} OnlyOneVisible(input: string)
    ensures WellSegmented(input, 0, Segments(input, 0))
    ensures forall segments :: WellSegmented(input, 0, segments) ==> Visible(input, segments) == Visible(input, Segments(input, 0))
  {
    SegmentsIff(input, 0, Segments(input, 0));
    forall segments: seq<Segment> | WellSegmented(input, 0, segments) ensures Visible(input, segments) == Visible(input, Segments(input, 0)) {
      SegmentsIff(input, 0, segments);
    }
  }

  predicate LeadsTo(input: string, i: nat, out: string, whole: string) {
    i <= |input| && out + Visible(input, Segments(input, i)) == whole
  }

  lemma {:induction false} VisibleStep(input: string, i: nat, out: string, whole: string)
    requires i < |input|
    requires LeadsTo(input, i, out, whole)
    ensures if input[i] != '<' then LeadsTo(input, i + 1, out + [input[i]], whole)
            else LeadsTo(input, End(SegmentAt(input, i)), out + " ", whole)
  {
    var here := SegmentAt(input, i);
    VisibleCons(input, here, Segments(input, End(here)));
    Associative(out, Shown(input, here), Visible(input, Segments(input, End(here))));
  }

  lemma {:induction false} VisibleCons(input: string, first: Segment, rest: seq<Segment>)
    ensures Visible(input, [first] + rest) == Shown(input, first) + Visible(input, rest)
  {
    assert ([first] + rest)[1..] == rest;
  }

  // ---- Whitespace ----

  /** The maximal runs of characters that are not white. */
  function Words(s: string): (r: seq<string>)
    ensures s != [] && !IsWhite(s[|s| - 1]) ==> r != []
    ensures forall i :: 0 <= i < |r| ==> r[i] != []
  {
    if s == [] then []
    else
      var front, c := s[..|s| - 1], s[|s| - 1];
      if IsWhite(c) then Words(front)
      else if front == [] || IsWhite(front[|front| - 1]) then Words(front) + [[c]]
      else
        var words := Words(front);
        words[..|words| - 1] + [words[|words| - 1] + [c]]
  }

  function Spaced(words: seq<string>): string {
    Join(words, " ")
  }

  function ScriptTrimEnd(s: string): string {
    if s != [] && IsScriptSpace(s[|s| - 1]) then ScriptTrimEnd(s[..|s| - 1]) else s
  }

  function ScriptTrim(s: string): string {
    ScriptTrimEnd(ScriptTrimStart(s))
  }

  function Collapsed(s: string): string {
    ScriptTrim(Spaced(Words(s)))
  }

  lemma {:induction false} SpacedSnoc(words: seq<string>, word: string)
    ensures Spaced(words + [word]) == if words == [] then word else Spaced(words) + " " + word
  {
    if |words| == 0 {
      assert words + [word] == [word];
    } else if |words| == 1 {
      assert (words + [word])[1..] == [word] && Spaced([word]) == word;
    } else {
      assert (words + [word])[1..] == words[1..] + [word];
      SpacedSnoc(words[1..], word);
      assert words[0] + " " + (Spaced(words[1..]) + " " + word) == words[0] + " " + Spaced(words[1..]) + " " + word;
    }
  }

  lemma {:induction false} SpacedGrows(words: seq<string>, c: char)
    requires words != []
    ensures Spaced(words[..|words| - 1] + [words[|words| - 1] + [c]]) == Spaced(words) + [c]
  {
    var front, last := words[..|words| - 1], words[|words| - 1];
    assert words == front + [last];
    SpacedSnoc(front, last);
    SpacedSnoc(front, last + [c]);
    assert Spaced(front) + " " + (last + [c]) == Spaced(front) + " " + last + [c];
  }

  lemma {:induction false} SpacedEmpty(words: seq<string>)
    requires forall i :: 0 <= i < |words| ==> words[i] != []
    ensures Spaced(words) == "" <==> words == []
  {
  }

  /** One more character: a white one is passed over, another starts a word or goes on with it. */
  lemma {:induction false} SpacedStep(front: string, c: char)
    ensures var before := Spaced(Words(front));
            Spaced(Words(front + [c])) ==
              if IsWhite(c) then before
              else if front == [] || before == "" then [c]
              else if IsWhite(front[|front| - 1]) then before + " " + [c]
              else before + [c]
  {
    assert (front + [c])[..|front|] == front;
    SpacedEmpty(Words(front));
    if !IsWhite(c) {
      if front == [] || IsWhite(front[|front| - 1]) { SpacedSnoc(Words(front), [c]); } else { SpacedGrows(Words(front), c); }
    }
  }

  /** collapseWhitespace. */
  method CollapseWhitespace(input: string) returns (out: string)
    ensures out == Collapsed(input)
  {
    out := "";
    var pendingSpace := false;
    for i := 0 to |input|
      invariant out == Spaced(Words(input[..i]))
      invariant pendingSpace <==> i > 0 && IsWhite(input[i - 1]) && out != ""
    {
      assert input[..i + 1] == input[..i] + [input[i]];
      SpacedStep(input[..i], input[i]);
      if IsWhite(input[i]) {
        pendingSpace := |out| > 0;
        continue;
      }
      if pendingSpace {
        out := out + " ";
      }
      out := out + [input[i]];
      pendingSpace := false;
    }
    assert input[..|input|] == input;
    out := ScriptTrim(out);
  }

  // ---- Words, independently of how they are found ----

  /** A run without white characters is one word. */
  lemma {:induction false} RunIsWord(word: string)
    requires word != "" && forall i :: 0 <= i < |word| ==> !IsWhite(word[i])
    ensures Words(word) == [word]
  {
    var front, c := word[..|word| - 1], word[|word| - 1];
    assert word == front + [c];
    if front == "" {
      assert Words(front) == [] && [c] == word;
    } else {
      RunIsWord(front);
    }
  }

  /** A white character parts words, wherever it stands. */
  lemma {:induction false} WhiteParts(front: string, c: char, back: string)
    requires IsWhite(c)
    ensures Words(front + [c] + back) == Words(front) + Words(back)
    decreases |back|
  {
    var whole := front + [c] + back;
    if back == "" {
      assert whole == front + [c] && (front + [c])[..|front|] == front && Words(front) + [] == Words(front);
    } else {
      var shorter, d := back[..|back| - 1], back[|back| - 1];
      assert back == shorter + [d];
      WhiteParts(front, c, shorter);
      Associative(front + [c], shorter, [d]);
      LastOfJoined(front + [c], shorter);
      PartsGrow(front + [c] + shorter, shorter, Words(front), d);
    }
  }

  lemma {:induction false} LastOfJoined(front: string, back: string)
    requires front != ""
    ensures (front + back)[|front + back| - 1] == if back == "" then front[|front| - 1] else back[|back| - 1]
  {
  }

  function Grown(words: seq<string>, c: char): seq<string>
    requires words != []
  {
    words[..|words| - 1] + [words[|words| - 1] + [c]]
  }

  lemma {:induction false} WordsSnoc(text: string, c: char)
    ensures Words(text + [c]) ==
            if IsWhite(c) then Words(text)
            else if text == "" || IsWhite(text[|text| - 1]) then Words(text) + [[c]]
            else Grown(Words(text), c)
  {
    assert (text + [c])[..|text|] == text;
  }

  lemma {:induction false} GrownBehind(words: seq<string>, mine: seq<string>, c: char)
    requires mine != []
    ensures Grown(words + mine, c) == words + Grown(mine, c)
  {
    var all := words + mine;
    assert all[..|all| - 1] == words + mine[..|mine| - 1];
  }

  lemma {:induction false} OneBehind(words: seq<string>, mine: seq<string>, word: string)
    ensures (words + mine) + [word] == words + (mine + [word])
  {
  }

  lemma {:induction false} PartsGrow(text: string, shorter: string, words: seq<string>, d: char)
    requires text != "" && Words(text) == words + Words(shorter)
    requires if shorter == "" then IsWhite(text[|text| - 1]) else text[|text| - 1] == shorter[|shorter| - 1]
    ensures Words(text + [d]) == words + Words(shorter + [d])
  {
    WordsSnoc(text, d);
    WordsSnoc(shorter, d);
    OneBehind(words, Words(shorter), [d]);
    if Words(shorter) != [] { GrownBehind(words, Words(shorter), d); }
  }

  lemma {:induction false} WordsOfSpaced(words: seq<string>)
    requires forall i :: 0 <= i < |words| ==> words[i] != "" && forall k :: 0 <= k < |words[i]| ==> !IsWhite(words[i][k])
    ensures Words(Spaced(words)) == words
  {
    if |words| == 1 {
      RunIsWord(words[0]);
    } else if words != [] {
      WordsOfSpaced(words[1..]);
      RunIsWord(words[0]);
      WhiteParts(words[0], ' ', Spaced(words[1..]));
      assert words == [words[0]] + words[1..];
    }
  }

  lemma {:induction false} WordsHaveNoWhite(s: string)
    ensures forall i :: 0 <= i < |Words(s)| ==> forall k :: 0 <= k < |Words(s)[i]| ==> !IsWhite(Words(s)[i][k])
  {
    if s != "" { WordsHaveNoWhite(s[..|s| - 1]); }
  }

  predicate ScriptBlank(s: string) {
    forall i :: 0 <= i < |s| ==> IsScriptSpace(s[i])
  }

  lemma {:induction false} ScriptStartSplits(s: string) returns (front: string)
    ensures s == front + ScriptTrimStart(s) && ScriptBlank(front) && NoScriptSpaceFirst(ScriptTrimStart(s))
  {
    if s != "" && IsScriptSpace(s[0]) {
      var rest := ScriptStartSplits(s[1..]);
      front := [s[0]] + rest;
      assert s == [s[0]] + s[1..];
    } else {
      front := "";
    }
  }

  lemma {:induction false} ScriptEndIs(s: string)
    ensures ScriptTrimEnd(s) <= s && forall i :: |ScriptTrimEnd(s)| <= i < |s| ==> IsScriptSpace(s[i])
    ensures ScriptTrimEnd(s) != "" ==> !IsScriptSpace(ScriptTrimEnd(s)[|ScriptTrimEnd(s)| - 1])
  {
    if s != "" && IsScriptSpace(s[|s| - 1]) { ScriptEndIs(s[..|s| - 1]); }
  }

  lemma {:induction false} ScriptEndSplits(s: string) returns (back: string)
    ensures s == ScriptTrimEnd(s) + back && ScriptBlank(back)
    ensures ScriptTrimEnd(s) != "" ==> !IsScriptSpace(ScriptTrimEnd(s)[|ScriptTrimEnd(s)| - 1])
  {
    ScriptEndIs(s);
    back := s[|ScriptTrimEnd(s)|..];
  }

  /** trim: nothing but white space goes, at the ends alone, and all of it there. */
  lemma {:induction false} ScriptTrimSplits(s: string) returns (front: string, back: string)
    ensures s == front + ScriptTrim(s) + back && ScriptBlank(front) && ScriptBlank(back) && ScriptTrimmed(ScriptTrim(s))
  {
    front := ScriptStartSplits(s);
    back := ScriptEndSplits(ScriptTrimStart(s));
    Associative(front, ScriptTrim(s), back);
    if ScriptTrim(s) != "" { assert ScriptTrim(s)[0] == ScriptTrimStart(s)[0]; }
  }

  /** Collapsing keeps the words, all of them and in order, and only space of another kind at the
      very ends goes as well. */
  lemma {:induction false} CollapsedKeepsWords(s: string)
    ensures Words(Spaced(Words(s))) == Words(s)
    ensures ScriptTrimmed(Spaced(Words(s))) ==> Words(Collapsed(s)) == Words(s)
  {
    WordsHaveNoWhite(s);
    WordsOfSpaced(Words(s));
  }

  /** No white characters but single spaces, none of them at either end. */
  predicate Normal(s: string) {
    && (forall i :: 0 <= i < |s| && IsWhite(s[i]) ==> s[i] == ' ' && 0 < i < |s| - 1 && !IsWhite(s[i - 1]) && !IsWhite(s[i + 1]))
  }

  predicate ScriptTrimmed(s: string) {
    s == [] || (!IsScriptSpace(s[0]) && !IsScriptSpace(s[|s| - 1]))
  }

  lemma {:induction false} NormalGrows(s: string, c: char)
    requires Normal(s) && !IsWhite(c)
    ensures Normal(s + [c]) && (s != "" ==> Normal(s + " " + [c]))
  {
    var longer, spaced := s + [c], s + " " + [c];
    forall i | 0 <= i < |longer| && IsWhite(longer[i])
      ensures longer[i] == ' ' && 0 < i < |longer| - 1 && !IsWhite(longer[i - 1]) && !IsWhite(longer[i + 1]) {
      assert longer[i] == s[i];
    }
    if s != "" {
      assert !IsWhite(s[|s| - 1]);
      forall i | 0 <= i < |spaced| && IsWhite(spaced[i])
        ensures spaced[i] == ' ' && 0 < i < |spaced| - 1 && !IsWhite(spaced[i - 1]) && !IsWhite(spaced[i + 1]) {
        if i < |s| { assert spaced[i] == s[i]; } else { assert i == |s|; }
      }
    }
  }

  lemma {:induction false} WordsSpacedNormal(s: string)
    ensures Normal(Spaced(Words(s)))
    ensures s != [] && !IsWhite(s[|s| - 1]) ==> var t := Spaced(Words(s)); t != [] && t[|t| - 1] == s[|s| - 1]
  {
    if s != [] {
      var front, c := s[..|s| - 1], s[|s| - 1];
      WordsSpacedNormal(front);
      assert s == front + [c];
      SpacedStep(front, c);
      if !IsWhite(c) { NormalGrows(Spaced(Words(front)), c); }
    }
  }

  lemma {:induction false} WordsAfterSpace(front: string, c: char)
    requires front != [] && Spaced(Words(front)) == front && !IsWhite(c)
    ensures Spaced(Words(front + " " + [c])) == front + " " + [c]
  {
    var between, whole := front + " ", front + " " + [c];
    assert between[..|front|] == front && whole[..|between|] == between;
    assert Words(between) == Words(front);
    SpacedSnoc(Words(front), [c]);
    SpacedEmpty(Words(front));
  }

  lemma {:induction false} WordsAfterChar(front: string, c: char)
    requires front != [] && Spaced(Words(front)) == front && !IsWhite(front[|front| - 1]) && !IsWhite(c)
    ensures Spaced(Words(front + [c])) == front + [c]
  {
    assert (front + [c])[..|front|] == front;
    SpacedGrows(Words(front), c);
  }

  lemma {:induction false} NormalPrefix(s: string, n: nat)
    requires Normal(s) && n <= |s| && (n > 0 ==> !IsWhite(s[n - 1]))
    ensures Normal(s[..n])
  {
    var front := s[..n];
    forall i | 0 <= i < n && IsWhite(front[i]) ensures front[i] == ' ' && 0 < i < n - 1 && !IsWhite(front[i - 1]) && !IsWhite(front[i + 1]) {
      assert front[i] == s[i];
    }
  }

  lemma {:induction false} NormalSuffix(s: string, n: nat)
    requires Normal(s) && n <= |s| && (n < |s| ==> !IsWhite(s[n]))
    ensures Normal(s[n..])
  {
    var back := s[n..];
    forall i | 0 <= i < |back| && IsWhite(back[i]) ensures back[i] == ' ' && 0 < i < |back| - 1 && !IsWhite(back[i - 1]) && !IsWhite(back[i + 1]) {
      assert back[i] == s[n + i];
    }
  }

  /** A normal text is what its own words spell. */
  lemma {:induction false} NormalIsSpaced(s: string)
    requires Normal(s)
    ensures Spaced(Words(s)) == s
  {
    if |s| == 1 {
      SpacedSnoc([], s);
      assert Words(s[..0]) == [] && [] + [s] == [s] && s == [s[0]];
    } else if s != [] {
      var front, c := s[..|s| - 1], s[|s| - 1];
      assert !IsWhite(c) && s == front + [c];
      if IsWhite(front[|front| - 1]) {
        var shorter := front[..|front| - 1];
        assert front == shorter + " " && shorter == s[..|s| - 2];
        NormalPrefix(s, |s| - 2);
        NormalIsSpaced(shorter);
        WordsAfterSpace(shorter, c);
      } else {
        NormalPrefix(s, |s| - 1);
        NormalIsSpaced(front);
        WordsAfterChar(front, c);
      }
    }
  }

  lemma {:induction false} TrimKeepsNormal(s: string)
    requires Normal(s)
    ensures Normal(ScriptTrimStart(s)) && NoScriptSpaceFirst(ScriptTrimStart(s))
    decreases |s|
  {
    if s != [] && IsScriptSpace(s[0]) {
      if |s| > 1 && IsWhite(s[1]) {
        assert IsScriptSpace(s[1]);
        var later := s[2..];
        NormalSuffix(s, 2);
        assert s[1..][1..] == later;
        TrimKeepsNormal(later);
      } else {
        NormalSuffix(s, 1);
        TrimKeepsNormal(s[1..]);
      }
    }
  }

  predicate NoScriptSpaceFirst(s: string) {
    s == [] || !IsScriptSpace(s[0])
  }

  lemma {:induction false} TrimEndKeepsNormal(s: string)
    requires Normal(s) && NoScriptSpaceFirst(s)
    ensures Normal(ScriptTrimEnd(s)) && ScriptTrimmed(ScriptTrimEnd(s))
    decreases |s|
  {
    if s != [] && IsScriptSpace(s[|s| - 1]) {
      var front := s[..|s| - 1];
      if front != [] && IsWhite(front[|front| - 1]) {
        var shorter := front[..|front| - 1];
        assert shorter == s[..|s| - 2];
        NormalPrefix(s, |s| - 2);
        TrimEndKeepsNormal(shorter);
      } else {
        NormalPrefix(s, |s| - 1);
        TrimEndKeepsNormal(front);
      }
    }
  }

  /** The output is in normal form, without white space of any kind at its ends. */
  lemma {:induction false} CollapsedIsNormal(s: string)
    ensures Normal(Collapsed(s)) && ScriptTrimmed(Collapsed(s))
  {
    WordsSpacedNormal(s);
    TrimKeepsNormal(Spaced(Words(s)));
    TrimEndKeepsNormal(ScriptTrimStart(Spaced(Words(s))));
  }

  lemma {:induction false} CollapsedIff(s: string)
    ensures Collapsed(s) == s <==> Normal(s) && ScriptTrimmed(s)
  {
    CollapsedIsNormal(s);
    if Normal(s) && ScriptTrimmed(s) { NormalIsSpaced(s); }
  }

  lemma {:induction false} CollapseIdempotent(s: string)
    ensures Collapsed(Collapsed(s)) == Collapsed(s)
  {
    CollapsedIsNormal(s);
    CollapsedIff(Collapsed(s));
  }

  lemma {:induction false} FromInput(s: string)
    requires '<' !in s
    ensures '<' !in Spaced(Words(s))
  {
    if s != [] {
      var front, c := s[..|s| - 1], s[|s| - 1];
      FromInput(front);
      assert s == front + [c];
      SpacedStep(front, c);
    }
  }

  lemma {:induction false} TrimStartFrom(s: string)
    ensures forall c :: c in ScriptTrimStart(s) ==> c in s
  {
    if s != [] && IsScriptSpace(s[0]) { TrimStartFrom(s[1..]); }
  }

  lemma {:induction false} TrimEndFrom(s: string)
    ensures forall c :: c in ScriptTrimEnd(s) ==> c in s
  {
    if s != [] && IsScriptSpace(s[|s| - 1]) { TrimEndFrom(s[..|s| - 1]); }
  }

  lemma {:induction false} CollapsedHasNoBracket(s: string)
    requires '<' !in s
    ensures '<' !in Collapsed(s)
  {
    FromInput(s);
    TrimStartFrom(Spaced(Words(s)));
    TrimEndFrom(ScriptTrimStart(Spaced(Words(s))));
  }

  const LIMIT: nat := 8000

  function Cut(text: string): string {
    if |text| <= LIMIT then text else text[..LIMIT]
  }

  /** stripHtmlForPrompt: what is text of the one segmentation there is, in normal form and cut to
      length, never with a `<`. */
  method StripHtmlForPrompt(input: string) returns (text: string)
    ensures text == Cut(Collapsed(Visible(input, Segments(input, 0))))
    ensures forall segments :: WellSegmented(input, 0, segments) ==> text == Cut(Collapsed(Visible(input, segments)))
    ensures var whole := Collapsed(Visible(input, Segments(input, 0)));
            if |whole| <= 8000 then text == whole else |text| == 8000 && text <= whole
    ensures '<' !in text
  {
    var out := StripMarkup(input);
    OnlyOneVisible(input);
    VisibleHasNoBracket(input, 0, Segments(input, 0));
    CollapsedHasNoBracket(out);
    text := CollapseWhitespace(out);
    if |text| > LIMIT {
      text := text[..LIMIT];
    }
  }

  lemma {:induction false} TextIsVisible(s: string, i: nat)
    requires '<' !in s && i <= |s|
    ensures Visible(s, Segments(s, i)) == s[i..]
    decreases |s| - i
  {
    if i < |s| {
      TextIsVisible(s, i + 1);
      VisibleCons(s, Plain(i), Segments(s, i + 1));
      SplitInput(s, i, i + 1);
    }
  }

  /** What has been stripped once has nothing left to strip. */
  lemma {:induction false} StripIdempotent(input: string)
    ensures var whole := Collapsed(Visible(input, Segments(input, 0)));
            Collapsed(Visible(whole, Segments(whole, 0))) == whole
  {
    var whole := Collapsed(Visible(input, Segments(input, 0)));
    OnlyOneVisible(input);
    VisibleHasNoBracket(input, 0, Segments(input, 0));
    CollapsedHasNoBracket(Visible(input, Segments(input, 0)));
    TextIsVisible(whole, 0);
    CollapseIdempotent(Visible(input, Segments(input, 0)));
  }
}
