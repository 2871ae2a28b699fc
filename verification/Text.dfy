/** String vocabulary shared by the models. */
module Text {
  import opened Options

  function Flatten(parts: seq<string>): string {
    if parts == [] then "" else parts[0] + Flatten(parts[1..])
  }

  lemma {:induction false} FlattenAppend(front: seq<string>, back: seq<string>)
    ensures Flatten(front + back) == Flatten(front) + Flatten(back)
  {
    if front == [] {
      assert front + back == back;
    } else {
      assert (front + back)[1..] == front[1..] + back;
      FlattenAppend(front[1..], back);
    }
  }

  lemma {:induction false} Associative(a: string, b: string, c: string)
    ensures (a + b) + c == a + (b + c)
  {
  }

  predicate OccursAt(s: string, needle: string, i: nat) {
    i + |needle| <= |s| && s[i..i + |needle|] == needle
  }

  ghost predicate Occurs(s: string, needle: string) {
    exists i: nat :: OccursAt(s, needle, i)
  }

  /** The leftmost occurrence of a needle at or after a position. */
  function FindFrom(s: string, needle: string, from: nat): (r: Option<nat>)
    ensures r.Some? ==> from <= r.value && OccursAt(s, needle, r.value) && forall j: nat :: from <= j < r.value ==> !OccursAt(s, needle, j)
    ensures r.None? ==> forall j: nat :: from <= j ==> !OccursAt(s, needle, j)
    decreases |s| - from
  {
    if from + |needle| > |s| then None
    else if OccursAt(s, needle, from) then Some(from)
    else FindFrom(s, needle, from + 1)
  }

  function Find(s: string, needle: string): (r: Option<nat>)
    ensures r.Some? ==> OccursAt(s, needle, r.value) && forall j: nat :: j < r.value ==> !OccursAt(s, needle, j)
    ensures r.None? <==> !Occurs(s, needle)
  {
    FindFrom(s, needle, 0)
  }

  /** The first occurrence is the only position with the defining property. */
  lemma {:induction false} FindIs(s: string, needle: string, i: nat)
    requires OccursAt(s, needle, i)
    requires forall j: nat :: j < i ==> !OccursAt(s, needle, j)
    ensures Find(s, needle) == Some(i)
  {
  }

  lemma {:induction false} OccursAtPrefix(a: string, b: string, needle: string, i: nat)
    ensures OccursAt(a, needle, i) ==> OccursAt(a + b, needle, i)
    ensures OccursAt(a + b, needle, i) && i + |needle| <= |a| ==> OccursAt(a, needle, i)
  {
    if i + |needle| <= |a| { assert (a + b)[i..i + |needle|] == a[i..i + |needle|]; }
  }

  /** A needle found within the front part is found at the same place in the whole. */
  lemma {:induction false} FindInFront(a: string, b: string, needle: string)
    requires Find(a, needle).Some?
    ensures Find(a + b, needle) == Find(a, needle)
  {
    var i := Find(a, needle).value;
    OccursAtPrefix(a, b, needle, i);
    forall j: nat | j < i ensures !OccursAt(a + b, needle, j) { OccursAtPrefix(a, b, needle, j); }
    FindIs(a + b, needle, i);
  }

  lemma {:induction false} OccursInSuffix(s: string, needle: string, from: nat)
    requires from <= |s| && Occurs(s[from..], needle)
    ensures Occurs(s, needle)
  {
    var i: nat :| OccursAt(s[from..], needle, i);
    assert s[from..][i..i + |needle|] == s[from + i..from + i + |needle|];
    assert OccursAt(s, needle, from + i);
  }

  // ---- Whitespace ----

  /** The characters of Unicode's White_Space property, which str::trim removes. */
  predicate IsSpace(c: char) {
    var n := c as int;
    || 9 <= n <= 13 || n == 32 || n == 0x85 || n == 0xA0 || n == 0x1680
    || 0x2000 <= n <= 0x200A || n == 0x2028 || n == 0x2029 || n == 0x202F || n == 0x205F || n == 0x3000
  }

  function TrimStart(s: string): string {
    if s != [] && IsSpace(s[0]) then TrimStart(s[1..]) else s
  }

  function TrimEnd(s: string): string {
    if s != [] && IsSpace(s[|s| - 1]) then TrimEnd(s[..|s| - 1]) else s
  }

  function Trim(s: string): string {
    TrimEnd(TrimStart(s))
  }

  /** Nothing but white space: what trim().is_empty() tests. */
  predicate Blank(value: string) {
    forall i :: 0 <= i < |value| ==> IsSpace(value[i])
  }

  /** The White_Space characters, one by one. */
  lemma {:induction false} SpacesListed(c: char)
    ensures IsSpace(c) <==> c as int in [
      0x9, 0xA, 0xB, 0xC, 0xD, 0x20, 0x85, 0xA0, 0x1680, 0x2000, 0x2001, 0x2002, 0x2003, 0x2004, 0x2005, 0x2006,
      0x2007, 0x2008, 0x2009, 0x200A, 0x2028, 0x2029, 0x202F, 0x205F, 0x3000]
  {
  }

  /** What is left of a text when the white space around it is taken off. */
  ghost predicate CoreOf(core: string, s: string) {
    Trimmed(core) && exists front, back :: Around(front, core, back, s)
  }

  predicate Around(front: string, core: string, back: string, s: string) {
    s == front + core + back && Blank(front) && Blank(back)
  }

  lemma {:induction false} TrimStartSplits(s: string) returns (front: string)
    ensures s == front + TrimStart(s) && Blank(front) && NoLeadingSpace(TrimStart(s))
  {
    if s != [] && IsSpace(s[0]) {
      var rest := TrimStartSplits(s[1..]);
      front := [s[0]] + rest;
      assert s == [s[0]] + s[1..];
    } else {
      front := "";
    }
  }

  lemma {:induction false} TrimEndIs(s: string)
    ensures TrimEnd(s) <= s && forall i :: |TrimEnd(s)| <= i < |s| ==> IsSpace(s[i])
    ensures TrimEnd(s) != "" ==> !IsSpace(TrimEnd(s)[|TrimEnd(s)| - 1])
  {
    if s != [] && IsSpace(s[|s| - 1]) { TrimEndIs(s[..|s| - 1]); }
  }

  lemma {:induction false} TrimEndSplits(s: string) returns (back: string)
    ensures s == TrimEnd(s) + back && Blank(back)
    ensures TrimEnd(s) != "" ==> !IsSpace(TrimEnd(s)[|TrimEnd(s)| - 1])
  {
    TrimEndIs(s);
    back := s[|TrimEnd(s)|..];
  }

  lemma {:induction false} TrimIsCore(s: string)
    ensures CoreOf(Trim(s), s)
  {
    var front := TrimStartSplits(s);
    var back := TrimEndSplits(TrimStart(s));
    assert TrimStart(s) == Trim(s) + back;
    if Trim(s) != "" { assert Trim(s)[0] == TrimStart(s)[0]; }
    assert Around(front, Trim(s), back, s);
  }

  lemma {:induction false} TrimStartSkips(front: string, rest: string)
    requires Blank(front)
    ensures TrimStart(front + rest) == TrimStart(rest)
  {
    if front == "" {
      assert front + rest == rest;
    } else {
      assert (front + rest)[1..] == front[1..] + rest && (front + rest)[0] == front[0];
      assert Blank(front[1..]) by { assert forall i :: 0 <= i < |front| - 1 ==> front[1..][i] == front[i + 1]; }
      TrimStartSkips(front[1..], rest);
    }
  }

  lemma {:induction false} TrimEndSkips(rest: string, back: string)
    requires Blank(back)
    ensures TrimEnd(rest + back) == TrimEnd(rest)
  {
    if back == "" {
      assert rest + back == rest;
    } else {
      var n := |back| - 1;
      assert (rest + back)[..|rest| + n] == rest + back[..n] && (rest + back)[|rest| + n] == back[n];
      TrimEndSkips(rest, back[..n]);
    }
  }

  /** trim: exactly the core, and there is only one. */
  lemma {:induction false} TrimIff(s: string, core: string)
    ensures CoreOf(core, s) <==> core == Trim(s)
  {
    TrimIsCore(s);
    if CoreOf(core, s) {
      var front, back :| Around(front, core, back, s);
      Associative(front, core, back);
      TrimStartSkips(front, core + back);
      if core == "" {
        assert core + back == back && back == back + "";
        TrimStartSkips(back, "");
      } else {
        assert TrimStart(core + back) == core + back;
        TrimEndSkips(core, back);
        assert TrimEnd(core) == core;
      }
    }
  }

  lemma {:induction false} BlankIsTrimmedAway(value: string)
    ensures Blank(value) <==> Trim(value) == ""
  {
    TrimStartIsEmpty(value);
    var start := TrimStart(value);
    if start != "" { TrimEndKeeps(start); }
  }

  lemma {:induction false} TrimStartIsEmpty(value: string)
    ensures Blank(value) <==> TrimStart(value) == ""
    ensures TrimStart(value) != "" ==> !IsSpace(TrimStart(value)[0])
  {
    if value != "" && IsSpace(value[0]) {
      TrimStartIsEmpty(value[1..]);
      assert Blank(value) <==> Blank(value[1..]) by {
        assert forall i :: 0 < i < |value| ==> value[i] == value[1..][i - 1];
      }
    }
  }

  lemma {:induction false} TrimEndKeeps(value: string)
    requires value != "" && !IsSpace(value[0])
    ensures TrimEnd(value) != ""
  {
    if IsSpace(value[|value| - 1]) { TrimEndKeeps(value[..|value| - 1]); }
  }

  /** White space and line terminators of ECMAScript, which trimStart removes. */
  predicate IsScriptSpace(c: char) {
    (IsSpace(c) && c as int != 0x85) || c as int == 0xFEFF
  }

  lemma {:induction false} ScriptSpacesListed(c: char)
    ensures IsScriptSpace(c) <==> c as int in [
      0x9, 0xA, 0xB, 0xC, 0xD, 0x20, 0xA0, 0xFEFF, 0x1680, 0x2000, 0x2001, 0x2002, 0x2003, 0x2004, 0x2005, 0x2006,
      0x2007, 0x2008, 0x2009, 0x200A, 0x2028, 0x2029, 0x202F, 0x205F, 0x3000]
  {
  }

  function ScriptTrimStart(s: string): string {
    if s != [] && IsScriptSpace(s[0]) then ScriptTrimStart(s[1..]) else s
  }

  /** trim_end_matches with a single character. */
  function TrimEndChar(s: string, c: char): (r: string)
    ensures r == [] || r[|r| - 1] != c
    ensures r <= s && forall i :: |r| <= i < |s| ==> s[i] == c
  {
    if s != [] && s[|s| - 1] == c then TrimEndChar(s[..|s| - 1], c) else s
  }

  predicate NoLeadingSpace(s: string) {
    s == [] || !IsSpace(s[0])
  }

  predicate Trimmed(s: string) {
    s == [] || (!IsSpace(s[0]) && !IsSpace(s[|s| - 1]))
  }

  predicate OneLine(s: string) {
    '\n' !in s && '\r' !in s
  }

  function StripPrefix(s: string, prefix: string): Option<string> {
    if prefix <= s then Some(s[|prefix|..]) else None
  }

  function Join(lines: seq<string>, separator: string): string {
    if lines == [] then ""
    else if |lines| == 1 then lines[0]
    else lines[0] + separator + Join(lines[1..], separator)
  }

  // ---- ASCII case ----

  function LowerChar(c: char): char {
    if 'A' <= c <= 'Z' then (c as int + 32) as char else c
  }

  function Lower(s: string): (r: string)
    ensures |r| == |s|
    ensures forall i :: 0 <= i < |s| ==> r[i] == LowerChar(s[i])
  {
    seq(|s|, i requires 0 <= i < |s| => LowerChar(s[i]))
  }

  /** The same letter up to ASCII case, or the same character. */
  predicate SameLetter(a: char, b: char) {
    || a == b
    || ('A' <= a <= 'Z' && b as int == a as int + 32)
    || ('A' <= b <= 'Z' && a as int == b as int + 32)
  }

  predicate SameLetters(s: string, t: string) {
    |s| == |t| && forall i :: 0 <= i < |s| ==> SameLetter(s[i], t[i])
  }

  lemma {:induction false} LowerCharTells(a: char, b: char)
    ensures LowerChar(a) == LowerChar(b) <==> SameLetter(a, b)
  {
  }

  lemma {:induction false} LowerTells(s: string, t: string)
    ensures Lower(s) == Lower(t) <==> SameLetters(s, t)
  {
    forall i | 0 <= i < |s| && i < |t| ensures Lower(s)[i] == Lower(t)[i] <==> SameLetter(s[i], t[i]) { LowerCharTells(s[i], t[i]); }
    if Lower(s) == Lower(t) {
      assert |s| == |t|;
    } else if |s| == |t| {
      var i :| 0 <= i < |s| && Lower(s)[i] != Lower(t)[i];
      assert !SameLetter(s[i], t[i]);
    }
  }
}
