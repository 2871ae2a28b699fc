/** A codec of the kind the theorems about turns ask for, so that they are about something: an
    envelope is written on one line, as numbers in unary. */
module UnaryCodec {
  import opened Options
  import opened Text
  import opened SseMessages
  import opened TurnStream
  import opened TurnRuns

  // ---- Numbers ----

  function Unary(n: nat): (r: string)
    ensures |r| == n + 1
  {
    if n == 0 then ";" else "x" + Unary(n - 1)
  }

  function Write(numbers: seq<nat>): string {
    if numbers == [] then "" else Unary(numbers[0]) + Write(numbers[1..])
  }

  function Read(s: string, counted: nat): seq<nat> {
    if s == [] then []
    else if s[0] == ';' then [counted] + Read(s[1..], 0)
    else Read(s[1..], counted + 1)
  }

  lemma {:induction false} ReadUnary(n: nat, rest: string, counted: nat)
    ensures Read(Unary(n) + rest, counted) == [counted + n] + Read(rest, 0)
  {
    if n == 0 {
      assert (";" + rest)[1..] == rest;
    } else {
      assert (Unary(n) + rest)[1..] == Unary(n - 1) + rest;
      ReadUnary(n - 1, rest, counted + 1);
    }
  }

  lemma {:induction false} ReadWrite(numbers: seq<nat>)
    ensures Read(Write(numbers), 0) == numbers
  {
    if numbers != [] {
      ReadUnary(numbers[0], Write(numbers[1..]), 0);
      ReadWrite(numbers[1..]);
    }
  }

  predicate UnaryDigits(s: string) {
    forall i :: 0 <= i < |s| ==> s[i] == 'x' || s[i] == ';'
  }

  lemma {:induction false} UnaryIsDigits(n: nat)
    ensures UnaryDigits(Unary(n))
  {
    if n > 0 { UnaryIsDigits(n - 1); }
  }

  lemma {:induction false} WriteIsDigits(numbers: seq<nat>)
    ensures UnaryDigits(Write(numbers))
  {
    if numbers != [] {
      UnaryIsDigits(numbers[0]);
      WriteIsDigits(numbers[1..]);
    }
  }

  // ---- Fields ----

  function ToChar(n: nat): char {
    if n < 0xD800 || 0xE000 <= n < 0x11_0000 then n as char else ' '
  }

  function Codes(s: string): seq<nat> {
    seq(|s|, i requires 0 <= i < |s| => s[i] as nat)
  }

  function Chars(codes: seq<nat>): string {
    seq(|codes|, i requires 0 <= i < |codes| => ToChar(codes[i]))
  }

  lemma {:induction false} CharsOfCodes(s: string)
    ensures Chars(Codes(s)) == s
  {
    forall i | 0 <= i < |s| ensures Chars(Codes(s))[i] == s[i] { }
  }

  function PutString(field: Option<string>): seq<nat> {
    if field.None? then [0] else [|field.value| + 1] + Codes(field.value)
  }

  datatype Taken = Taken(field: Option<string>, rest: seq<nat>)

  function TakeString(numbers: seq<nat>): Taken {
    if numbers == [] || numbers[0] == 0 || numbers[0] > |numbers| then Taken(None, if numbers == [] then [] else numbers[1..])
    else Taken(Some(Chars(numbers[1..numbers[0]])), numbers[numbers[0]..])
  }

  lemma {:induction false} TakeStringPut(field: Option<string>, rest: seq<nat>)
    ensures TakeString(PutString(field) + rest) == Taken(field, rest)
  {
    var numbers := PutString(field) + rest;
    if field.Some? {
      CharsOfCodes(field.value);
      assert numbers[1..numbers[0]] == Codes(field.value) && numbers[numbers[0]..] == rest;
    } else {
      assert numbers[1..] == rest;
    }
  }

  // ---- Envelopes ----

  function PutPayload(p: Payload): seq<nat> {
    PutString(p.kind) + (PutString(p.delta) + (PutString(p.status) + PutString(p.error)))
  }

  function TakePayload(numbers: seq<nat>): Payload {
    var kind := TakeString(numbers);
    var delta := TakeString(kind.rest);
    var status := TakeString(delta.rest);
    Payload(kind.field, delta.field, status.field, TakeString(status.rest).field)
  }

  lemma {:induction false} TakePayloadPut(p: Payload)
    ensures TakePayload(PutPayload(p)) == p
  {
    TakeStringPut(p.kind, PutString(p.delta) + (PutString(p.status) + PutString(p.error)));
    TakeStringPut(p.delta, PutString(p.status) + PutString(p.error));
    TakeStringPut(p.status, PutString(p.error));
    assert PutString(p.error) + [] == PutString(p.error);
    TakeStringPut(p.error, []);
  }

  function Put(e: Envelope): seq<nat> {
    [if e.seqNo.Some? then e.seqNo.value + 1 else 0] + (PutString(e.turnId) + PutPayload(e.payload))
  }

  function TakeEnvelope(numbers: seq<nat>): Envelope
    requires numbers != []
  {
    var turnId := TakeString(numbers[1..]);
    Envelope(if numbers[0] > 0 then Some(numbers[0] - 1) else None, turnId.field, TakePayload(turnId.rest))
  }

  lemma {:induction false} TakeEnvelopePut(e: Envelope)
    ensures TakeEnvelope(Put(e)) == e
  {
    assert Put(e)[1..] == PutString(e.turnId) + PutPayload(e.payload);
    TakeStringPut(e.turnId, PutPayload(e.payload));
    TakePayloadPut(e.payload);
  }

  function Encode(e: Envelope): seq<string> {
    [Write(Put(e))]
  }

  function Decode(s: string): Option<Envelope> {
    var numbers := Read(s, 0);
    if numbers == [] then None else Some(TakeEnvelope(numbers))
  }

  const CODEC := Codec(Encode, Decode)

  /** What is encoded decodes to itself, over lines that survive printing. */
  lemma {:induction false} CodecIsFaithful()
    ensures Faithful(CODEC)
  {
    forall e: Envelope
      ensures CODEC.encode(e) != []
      ensures forall i :: 0 <= i < |CODEC.encode(e)| ==> OneLine(CODEC.encode(e)[i]) && NoLeadingSpace(CODEC.encode(e)[i])
      ensures CODEC.decode(Join(CODEC.encode(e), "\n")) == Some(e)
    {
      EncodesOneLine(e);
      DecodesAgain(e);
    }
  }

  lemma {:induction false} EncodesOneLine(e: Envelope)
    ensures OneLine(Write(Put(e))) && NoLeadingSpace(Write(Put(e)))
  {
    WriteIsDigits(Put(e));
    DigitsSurvive(Write(Put(e)));
  }

  lemma {:induction false} DigitsSurvive(s: string)
    requires UnaryDigits(s)
    ensures OneLine(s) && NoLeadingSpace(s)
  {
  }

  lemma {:induction false} DecodesAgain(e: Envelope)
    ensures Decode(Join(Encode(e), "\n")) == Some(e)
  {
    JoinOne(Write(Put(e)));
    ReadWrite(Put(e));
    TakeEnvelopePut(e);
  }

  lemma {:induction false} JoinOne(line: string)
    ensures Join([line], "\n") == line
  {
  }

  lemma {:induction false} EncodedEnd()
    ensures |Write(Put(EnvelopeOf(END)))| == 128
  {
    var numbers := Put(EnvelopeOf(END));
    assert Codes("t") == [116];
    assert numbers == [3, 2, 116, 0, 0, 0, 0];
    WriteLength(numbers);
    assert numbers[1..] == [2, 116, 0, 0, 0, 0] && [2, 116, 0, 0, 0, 0][1..] == [116, 0, 0, 0, 0];
    assert [116, 0, 0, 0, 0][1..] == [0, 0, 0, 0] && [0, 0, 0, 0][1..] == [0, 0, 0];
    assert [0, 0, 0][1..] == [0, 0] && [0, 0][1..] == [0] && [0][1..] == [];
    assert Sum([0, 0, 0, 0]) == 4 by { assert Sum([0, 0]) == 2; }
    assert Sum([2, 116, 0, 0, 0, 0]) == 3 + Sum([116, 0, 0, 0, 0]);
  }

  function Sum(numbers: seq<nat>): nat {
    if numbers == [] then 0 else numbers[0] + 1 + Sum(numbers[1..])
  }

  lemma {:induction false} WriteLength(numbers: seq<nat>)
    ensures |Write(numbers)| == Sum(numbers)
  {
    if numbers != [] { WriteLength(numbers[1..]); }
  }

  lemma {:induction false} PrintedLength(name: string, line: string)
    ensures |Print(Event(name, [line]))| == |name| + |line| + 16
  {
    assert [line][1..] == [] && DataLines([line]) == ["data: " + line];
    var lines := ["event: " + name] + DataLines([line]);
    assert lines == ["event: " + name, "data: " + line];
    assert lines[1..] == ["data: " + line] && lines[1..][1..] == [];
    assert Unlines([]) == "";
    assert Unlines(lines[1..]) == "data: " + line + "\n" + "";
  }

  /** With this codec the runtime does lose a delta, without any assumption. */
  lemma {:induction false} GapDoesLose() returns (world: World, step: Step)
    ensures Inv(world) && step.Turned? && Possible(world, step, CODEC)
    ensures TurnOf(world, step, CODEC).progress.Done?
    ensures TurnOf(world, step, CODEC).deltas == [] && Owed(LogAfter(world, step), step.turn) == ["hi"]
  {
    CodecIsFaithful();
    EncodedEnd();
    PrintedLength("turn.completed", Write(Put(EnvelopeOf(END))));
    world, step := GapCanLose(CODEC);
  }
}
