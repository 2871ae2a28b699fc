/** The byte buffer of RuntimeBridge::stream_turn_events (crates/app-server/src/lib.rs): network
    chunks go in, server-sent-event frames come out at a CRLFCRLF if the buffer holds one
    anywhere, and otherwise at the first LFLF. */
module SseFraming {
  import opened Options
  import opened Text

  const CRLF2 := "\r\n\r\n"
  const LF2 := "\n\n"
  const MAX_FRAME: nat := 16 * 1024 * 1024

  /** Where take_sse_frame cuts the buffer. */
  function CutPoint(buffer: string): (r: Option<nat>)
    ensures r.Some? ==> 0 < r.value <= |buffer|
  {
    if Find(buffer, CRLF2).Some? then Some(Find(buffer, CRLF2).value + 4)
    else if Find(buffer, LF2).Some? then Some(Find(buffer, LF2).value + 2)
    else None
  }

  datatype Drained = Drained(frames: seq<string>, rest: string)

  /** Everything the inner loop takes out of one buffer. */
  function Drain(buffer: string): Drained
    decreases |buffer|
  {
    match CutPoint(buffer)
    case None => Drained([], buffer)
    case Some(cut) =>
      var later := Drain(buffer[cut..]);
      Drained([buffer[..cut]] + later.frames, later.rest)
  }

  /** Everything the outer loop takes out of a chunk list, without the size limit. */
  function Feed(chunks: seq<string>, buffer: string): Drained
    decreases |chunks|
  {
    if chunks == [] then Drained([], buffer)
    else
      var now := Drain(buffer + chunks[0]);
      var later := Feed(chunks[1..], now.rest);
      Drained(now.frames + later.frames, later.rest)
  }

  /** No chunk of the run finds the buffer over the limit: the check comes before draining. */
  predicate WithinLimit(chunks: seq<string>, buffer: string)
    decreases |chunks|
  {
    chunks != [] ==>
      && |buffer + chunks[0]| <= MAX_FRAME
      && WithinLimit(chunks[1..], Drain(buffer + chunks[0]).rest)
  }

  /** The buffer itself, drained in place. */
  class FrameBuffer {
    var bytes: string

    constructor ()
      ensures bytes == ""
    {
      bytes := "";
    }

    method Extend(chunk: string) returns (accepted: bool)
      modifies this
      ensures bytes == old(bytes) + chunk
      ensures accepted == (|bytes| <= 16777216)
    {
      bytes := bytes + chunk;
      accepted := |bytes| <= MAX_FRAME;
    }

    /** take_sse_frame. The frame and what stays behind are the old contents, cut in two. */
    method TakeFrame() returns (frame: Option<string>)
      modifies this
      ensures frame.None? ==> bytes == old(bytes) && Drain(bytes) == Drained([], bytes)
      ensures frame.Some? ==>
                && |bytes| < |old(bytes)| && frame.value + bytes == old(bytes)
                && Drain(old(bytes)) == Drained([frame.value] + Drain(bytes).frames, Drain(bytes).rest)
    {
      frame := None;
      var position := Find(bytes, CRLF2);
      if position.Some? {
        frame := Some(bytes[..position.value + 4]);
        bytes := bytes[position.value + 4..];
        return;
      }
      position := Find(bytes, LF2);
      if position.Some? {
        frame := Some(bytes[..position.value + 2]);
        bytes := bytes[position.value + 2..];
      }
    }
  }

  // ---- Conservation ----

  predicate EndsFrame(frame: string) {
    || (|frame| >= 4 && frame[|frame| - 4..] == CRLF2)
    || (|frame| >= 2 && frame[|frame| - 2..] == LF2)
  }

  predicate AllFrames(frames: seq<string>) {
    forall i :: 0 <= i < |frames| ==> EndsFrame(frames[i])
  }

  ghost predicate Undelimited(s: string) {
    !Occurs(s, CRLF2) && !Occurs(s, LF2)
  }

  lemma {:induction false} CutEndsFrame(buffer: string)
    requires CutPoint(buffer).Some?
    ensures EndsFrame(buffer[..CutPoint(buffer).value])
  {
    var cut := CutPoint(buffer).value;
    if Find(buffer, CRLF2).Some? {
      assert buffer[..cut][cut - 4..] == buffer[cut - 4..cut];
    } else {
      assert buffer[..cut][cut - 2..] == buffer[cut - 2..cut];
    }
  }

  /** What is left after a drain holds no delimiter. */
  lemma {:induction false} DrainLeavesNoDelimiter(buffer: string)
    ensures Undelimited(Drain(buffer).rest)
    decreases |buffer|
  {
    var cut := CutPoint(buffer);
    if cut.Some? { DrainLeavesNoDelimiter(buffer[cut.value..]); }
  }

  lemma {:induction false} DrainYieldsFrames(buffer: string)
    ensures AllFrames(Drain(buffer).frames)
    decreases |buffer|
  {
    var cut := CutPoint(buffer);
    if cut.Some? {
      DrainYieldsFrames(buffer[cut.value..]);
      CutEndsFrame(buffer);
    }
  }

  lemma {:induction false} DrainConserves(buffer: string)
    ensures Flatten(Drain(buffer).frames) + Drain(buffer).rest == buffer
    decreases |buffer|
  {
    var cut := CutPoint(buffer);
    if cut.Some? {
      DrainConserves(buffer[cut.value..]);
      Regroup(buffer, cut.value, Drain(buffer[cut.value..]));
    }
  }

  lemma {:induction false} Regroup(buffer: string, cut: nat, later: Drained)
    requires cut <= |buffer| && Flatten(later.frames) + later.rest == buffer[cut..]
    ensures Flatten([buffer[..cut]] + later.frames) + later.rest == buffer
  {
    assert ([buffer[..cut]] + later.frames)[1..] == later.frames;
    assert buffer[..cut] + (Flatten(later.frames) + later.rest) == buffer;
  }

  /** Over every run: frames taken so far followed by the residual buffer are exactly the bytes
      received. */
  lemma {:induction false} FeedConserves(chunks: seq<string>, buffer: string)
    ensures Flatten(Feed(chunks, buffer).frames) + Feed(chunks, buffer).rest == buffer + Flatten(chunks)
    decreases |chunks|
  {
    if chunks == [] {
      assert buffer + Flatten(chunks) == buffer;
    } else {
      var now := Drain(buffer + chunks[0]);
      DrainConserves(buffer + chunks[0]);
      FeedConserves(chunks[1..], now.rest);
      RegroupChunks(buffer, chunks, now, Feed(chunks[1..], now.rest));
    }
  }

  lemma {:induction false} RegroupChunks(buffer: string, chunks: seq<string>, now: Drained, later: Drained)
    requires chunks != [] && Flatten(now.frames) + now.rest == buffer + chunks[0]
    requires Flatten(later.frames) + later.rest == now.rest + Flatten(chunks[1..])
    ensures Flatten(now.frames + later.frames) + later.rest == buffer + Flatten(chunks)
  {
    FlattenAppend(now.frames, later.frames);
    Associative(Flatten(now.frames), Flatten(later.frames), later.rest);
    Associative(Flatten(now.frames), now.rest, Flatten(chunks[1..]));
    Associative(buffer, chunks[0], Flatten(chunks[1..]));
  }

  /** Over every run from an undelimited buffer: every frame ends in a delimiter, the residual
      holds none, and in a run the limit lets through the residual is within the limit. */
  lemma {:induction false} FeedResidual(chunks: seq<string>, buffer: string)
    requires Undelimited(buffer)
    ensures AllFrames(Feed(chunks, buffer).frames) && Undelimited(Feed(chunks, buffer).rest)
    ensures WithinLimit(chunks, buffer) && |buffer| <= MAX_FRAME ==> |Feed(chunks, buffer).rest| <= MAX_FRAME
    decreases |chunks|
  {
    if chunks != [] {
      DrainLeavesNoDelimiter(buffer + chunks[0]);
      DrainYieldsFrames(buffer + chunks[0]);
      DrainConserves(buffer + chunks[0]);
      FeedResidual(chunks[1..], Drain(buffer + chunks[0]).rest);
    }
  }

  // ---- When the frames do not depend on the chunking ----

  /** At some point of draining the whole stream, an LFLF stands before the CRLFCRLF at which
      the buffer is cut. */
  predicate Mixed(stream: string)
    decreases |stream|
  {
    var c, l := Find(stream, CRLF2), Find(stream, LF2);
    c.Some? && ((l.Some? && l.value < c.value) || Mixed(stream[c.value + 4..]))
  }

  lemma {:induction false} OneDelimiterIsNotMixed(stream: string)
    requires !Occurs(stream, CRLF2) || !Occurs(stream, LF2)
    ensures !Mixed(stream)
    decreases |stream|
  {
    var c := Find(stream, CRLF2);
    if c.Some? {
      if Occurs(stream[c.value + 4..], LF2) { OccursInSuffix(stream, LF2, c.value + 4); }
      OneDelimiterIsNotMixed(stream[c.value + 4..]);
    }
  }

  /** The two delimiters can only overlap in the last byte of a CRLFCRLF. */
  lemma {:induction false} Overlap(s: string, c: nat, l: nat)
    requires OccursAt(s, CRLF2, c) && OccursAt(s, LF2, l) && c < l
    ensures c + 3 <= l
  {
    assert s[c + 1] == s[c..c + 4][1] && s[c + 2] == s[c..c + 4][2];
    assert s[l] == s[l..l + 2][0] && s[l + 1] == s[l..l + 2][1];
  }

  /** On a stream that is not mixed, a cut made in any prefix is the cut the whole stream gets. */
  lemma {:induction false} SameCut(front: string, back: string)
    requires !Mixed(front + back) && CutPoint(front).Some?
    ensures CutPoint(front + back) == CutPoint(front)
  {
    if Find(front, CRLF2).Some? {
      FindInFront(front, back, CRLF2);
    } else {
      FindInFront(front, back, LF2);
      var l, c := Find(front, LF2).value, Find(front + back, CRLF2);
      if c.Some? {
        if c.value < l { Overlap(front + back, c.value, l); }
        assert c.value != l by {
          assert (front + back)[c.value..c.value + 4][0] == (front + back)[c.value];
          assert (front + back)[l..l + 2][0] == (front + back)[l];
        }
        OccursAtPrefix(front, back, CRLF2, c.value);
        assert false;
      }
    }
  }

  lemma {:induction false} NotMixedAfterCut(stream: string)
    requires !Mixed(stream) && CutPoint(stream).Some?
    ensures !Mixed(stream[CutPoint(stream).value..])
  {
    if Find(stream, CRLF2).None? {
      var rest := stream[CutPoint(stream).value..];
      if Occurs(rest, CRLF2) { OccursInSuffix(stream, CRLF2, CutPoint(stream).value); }
      OneDelimiterIsNotMixed(rest);
    }
  }

  /** Draining early changes nothing on a stream that is not mixed. */
  lemma {:induction false} DrainInTwo(front: string, back: string)
    requires !Mixed(front + back)
    ensures var d := Drain(front); var later := Drain(d.rest + back);
            && Drain(front + back) == Drained(d.frames + later.frames, later.rest)
            && !Mixed(d.rest + back)
    decreases |front|
  {
    var cut := CutPoint(front);
    if cut.Some? {
      SameCut(front, back);
      NotMixedAfterCut(front + back);
      assert (front + back)[cut.value..] == front[cut.value..] + back;
      assert (front + back)[..cut.value] == front[..cut.value];
      DrainInTwo(front[cut.value..], back);
      var d := Drain(front[cut.value..]);
      var later := Drain(d.rest + back);
      assert ([front[..cut.value]] + d.frames) + later.frames == [front[..cut.value]] + (d.frames + later.frames);
    }
  }

  lemma {:induction false} FeedIsDrain(chunks: seq<string>, buffer: string)
    requires !Mixed(buffer + Flatten(chunks))
    requires CutPoint(buffer).None?
    ensures Feed(chunks, buffer) == Drain(buffer + Flatten(chunks))
    decreases |chunks|
  {
    if chunks == [] {
      assert buffer + Flatten(chunks) == buffer;
    } else {
      var front, back := buffer + chunks[0], Flatten(chunks[1..]);
      assert front + back == buffer + Flatten(chunks);
      DrainInTwo(front, back);
      DrainLeavesNoDelimiter(front);
      FeedIsDrain(chunks[1..], Drain(front).rest);
    }
  }

  /** A buffer that ends with its own first delimiter is one frame. */
  lemma {:induction false} WholeFrame(stream: string, delimiter: string, at: nat)
    requires delimiter == CRLF2 || (delimiter == LF2 && (Find(stream, CRLF2).Some? ==> at < Find(stream, CRLF2).value))
    requires Find(stream, delimiter) == Some(at)
    ensures at + |delimiter| <= |stream|
    ensures Drain(stream[..at + |delimiter|]) == Drained([stream[..at + |delimiter|]], "")
  {
    var cut := at + |delimiter|;
    var front, back := stream[..cut], stream[cut..];
    assert front + back == stream;
    if Occurs(front, CRLF2) { FindInFront(front, back, CRLF2); }
    OccursAtPrefix(front, back, delimiter, at);
    forall j: nat | j < at ensures !OccursAt(front, delimiter, j) { OccursAtPrefix(front, back, delimiter, j); }
    FindIs(front, delimiter, at);
    OneFrame(front);
  }

  lemma {:induction false} OneFrame(front: string)
    requires CutPoint(front) == Some(|front|)
    ensures Drain(front) == Drained([front], "")
  {
    DrainEmpty();
    assert front[..|front|] == front && front[|front|..] == "";
    DrainStep(front, |front|);
    assert [front] + [] == [front];
  }

  lemma {:induction false} DrainEmpty()
    ensures Drain("") == Drained([], "")
  {
    assert CutPoint("").None?;
  }

  /** Cutting the network stream at a point that ends a frame. */
  lemma {:induction false} FeedHead(front: string, later: seq<string>)
    requires Drain(front) == Drained([front], "")
    ensures Feed([front] + later, "") == Drained([front] + Feed(later, "").frames, Feed(later, "").rest)
    ensures Flatten([front] + later) == front + Flatten(later)
  {
    assert "" + front == front && ([front] + later)[1..] == later;
  }

  lemma {:induction false} DrainStep(buffer: string, cut: nat)
    requires CutPoint(buffer) == Some(cut)
    ensures Drain(buffer) == Drained([buffer[..cut]] + Drain(buffer[cut..]).frames, Drain(buffer[cut..]).rest)
  {
  }

  /** Two frame lists that part at the head, or after it, are different. */
  lemma {:induction false} DifferentFrames(head: string, other: string, tail: seq<string>, otherTail: seq<string>)
    requires head != other || tail != otherTail
    ensures [head] + tail != [other] + otherTail
  {
    assert ([head] + tail)[0] == head && ([other] + otherTail)[0] == other;
    assert ([head] + tail)[1..] == tail && ([other] + otherTail)[1..] == otherTail;
  }

  /** Cut at an earlier frame end than the one the whole stream is cut at, the stream yields
      another first frame than in one piece. */
  lemma {:induction false} EarlyCutDiffers(front: string, later: seq<string>, whole: Drained)
    requires Drain(front) == Drained([front], "")
    requires whole.frames != [] && whole.frames[0] != front
    ensures Feed([front] + later, "") != whole
    ensures Flatten([front] + later) == front + Flatten(later)
  {
    FeedHead(front, later);
  }

  lemma {:induction false} FlattenPair(front: string, back: string)
    ensures Flatten([front] + [back]) == front + back
  {
    assert ([front] + [back])[1..] == [back] && [back][1..] == [];
    assert back + Flatten([]) == back;
  }

  lemma {:induction false} LaterCutDiffers(front: string, later: seq<string>, rest: Drained)
    requires Drain(front) == Drained([front], "") && Feed(later, "") != rest
    ensures Feed([front] + later, "") != Drained([front] + rest.frames, rest.rest)
    ensures Flatten([front] + later) == front + Flatten(later)
  {
    FeedHead(front, later);
    if Feed(later, "").frames != rest.frames {
      DifferentFrames(front, front, Feed(later, "").frames, rest.frames);
    }
  }

  /** A cutting of a mixed stream that yields other frames than the stream in one piece. */
  lemma {:induction false} MixedWitness(stream: string) returns (chunks: seq<string>)
    requires Mixed(stream)
    ensures Flatten(chunks) == stream
    ensures Feed(chunks, "") != Drain(stream)
    decreases |stream|
  {
    var c, l := Find(stream, CRLF2).value, Find(stream, LF2);
    if l.Some? && l.value < c {
      chunks := EarlyWitness(stream, l.value, c);
    } else {
      var later := MixedWitness(stream[c + 4..]);
      LaterWitness(stream, c, later);
      chunks := [stream[..c + 4]] + later;
    }
  }

  lemma {:induction false} EarlyWitness(stream: string, l: nat, c: nat) returns (chunks: seq<string>)
    requires Find(stream, LF2) == Some(l) && Find(stream, CRLF2) == Some(c) && l < c
    ensures Flatten(chunks) == stream
    ensures Feed(chunks, "") != Drain(stream)
  {
    var front, back := stream[..l + 2], stream[l + 2..];
    assert front + back == stream;
    FlattenPair(front, back);
    chunks := [front] + [back];
    EarlyFrames(stream, l, c);
    EarlyCutDiffers(front, [back], Drain(stream));
  }

  lemma {:induction false} EarlyFrames(stream: string, l: nat, c: nat)
    requires Find(stream, LF2) == Some(l) && Find(stream, CRLF2) == Some(c) && l < c
    ensures l + 2 <= |stream| && Drain(stream[..l + 2]) == Drained([stream[..l + 2]], "")
    ensures Drain(stream).frames != [] && Drain(stream).frames[0] != stream[..l + 2]
  {
    DrainStep(stream, c + 4);
    assert |Drain(stream).frames[0]| == c + 4;
    WholeFrame(stream, LF2, l);
  }

  lemma {:induction false} LaterWitness(stream: string, c: nat, later: seq<string>)
    requires Find(stream, CRLF2) == Some(c)
    requires Flatten(later) == stream[c + 4..] && Feed(later, "") != Drain(stream[c + 4..])
    ensures Flatten([stream[..c + 4]] + later) == stream
    ensures Feed([stream[..c + 4]] + later, "") != Drain(stream)
  {
    var head, tail := stream[..c + 4], stream[c + 4..];
    HeadDrains(stream, c, head);
    StreamDrains(stream, c, head, tail);
    LaterWitnessOf(head, tail, later);
  }

  lemma {:induction false} HeadDrains(stream: string, c: nat, head: string)
    requires Find(stream, CRLF2) == Some(c) && head == stream[..c + 4]
    ensures Drain(head) == Drained([head], "")
  {
    WholeFrame(stream, CRLF2, c);
  }

  lemma {:induction false} StreamDrains(stream: string, c: nat, head: string, tail: string)
    requires Find(stream, CRLF2) == Some(c) && head == stream[..c + 4] && tail == stream[c + 4..]
    ensures head + tail == stream && Drain(stream) == Drained([head] + Drain(tail).frames, Drain(tail).rest)
  {
    DrainStep(stream, c + 4);
  }

  lemma {:induction false} LaterWitnessOf(head: string, tail: string, later: seq<string>)
    requires Drain(head) == Drained([head], "")
    requires Drain(head + tail) == Drained([head] + Drain(tail).frames, Drain(tail).rest)
    requires Flatten(later) == tail && Feed(later, "") != Drain(tail)
    ensures Flatten([head] + later) == head + tail && Feed([head] + later, "") != Drain(head + tail)
  {
    LaterCutDiffers(head, later, Drain(tail));
  }

  /** The frames of a stream are the same for every way the network cuts it, exactly when the
      stream is not mixed. */
  lemma {:induction false} ChunkIndependentIff(stream: string)
    ensures (forall chunks: seq<string> :: Flatten(chunks) == stream ==> Feed(chunks, "") == Drain(stream)) <==> !Mixed(stream)
  {
    if Mixed(stream) {
      var chunks := MixedWitness(stream);
    } else {
      forall chunks: seq<string> | Flatten(chunks) == stream ensures Feed(chunks, "") == Drain(stream) {
        assert "" + stream == stream;
        FeedIsDrain(chunks, "");
      }
    }
  }

  /** The size limit never fires on a stream no longer than it, so the theorem above is about
      real runs; beyond that length it can fire on one cutting and not on another. */
  lemma {:induction false} ShortStreamsStayWithinLimit(chunks: seq<string>, buffer: string)
    requires |buffer| + |Flatten(chunks)| <= MAX_FRAME
    ensures WithinLimit(chunks, buffer)
    decreases |chunks|
  {
    if chunks != [] {
      DrainConserves(buffer + chunks[0]);
      ShortStreamsStayWithinLimit(chunks[1..], Drain(buffer + chunks[0]).rest);
    }
  }

  const LF_FRAME := "a\n\n"
  const CRLF_FRAME := "b\r\n\r\n"

  /** For instance a frame that ends in LFLF and one that ends in CRLFCRLF are one frame when they
      arrive together, and two when they do not. */
  lemma {:induction false} ChunkingMatters()
    ensures Feed([LF_FRAME + CRLF_FRAME], "").frames == [LF_FRAME + CRLF_FRAME]
    ensures Feed([LF_FRAME, CRLF_FRAME], "").frames == [LF_FRAME, CRLF_FRAME]
  {
    FramesApart();
    FramesTogether();
    FeedOne(LF_FRAME + CRLF_FRAME);
    FeedOne(CRLF_FRAME);
    FeedHead(LF_FRAME, [CRLF_FRAME]);
    assert [LF_FRAME] + [CRLF_FRAME] == [LF_FRAME, CRLF_FRAME];
  }

  lemma {:induction false} FramesApart()
    ensures Drain(LF_FRAME) == Drained([LF_FRAME], "") && Drain(CRLF_FRAME) == Drained([CRLF_FRAME], "")
  {
    assert LF_FRAME[1..] == LF2 && CRLF_FRAME[1..] == CRLF2;
    FrameEndsAt(LF_FRAME, LF2, 1);
    FrameEndsAt(CRLF_FRAME, CRLF2, 1);
  }

  lemma {:induction false} FramesTogether()
    ensures Drain(LF_FRAME + CRLF_FRAME) == Drained([LF_FRAME + CRLF_FRAME], "")
  {
    var both := "a\n\nb\r\n\r\n";
    assert LF_FRAME + CRLF_FRAME == both && both[4..] == CRLF2;
    FrameEndsAt(both, CRLF2, 4);
  }

  lemma {:induction false} FrameEndsAt(frame: string, delimiter: string, at: nat)
    requires delimiter == CRLF2 || (delimiter == LF2 && |frame| < 4)
    requires at + |delimiter| == |frame| && frame[at..] == delimiter
    requires forall j: nat :: j < at ==> frame[j] != delimiter[0]
    ensures Drain(frame) == Drained([frame], "")
  {
    assert frame[at..at + |delimiter|] == frame[at..];
    forall j: nat | j < at ensures !OccursAt(frame, delimiter, j) {
      StartsWithFirst(frame, delimiter, j);
    }
    FindIs(frame, delimiter, at);
    OneFrame(frame);
  }

  lemma {:induction false} StartsWithFirst(s: string, needle: string, j: nat)
    requires needle != ""
    ensures OccursAt(s, needle, j) ==> j < |s| && s[j] == needle[0]
  {
    if OccursAt(s, needle, j) { assert s[j..j + |needle|][0] == s[j]; }
  }

  lemma {:induction false} FeedOne(chunk: string)
    ensures Feed([chunk], "") == Drained(Drain(chunk).frames, Drain(chunk).rest)
  {
    assert "" + chunk == chunk && [chunk][1..] == [] && Drain(chunk).frames + [] == Drain(chunk).frames;
  }
}
