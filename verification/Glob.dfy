/** The wildcard matcher of crates/config/src/harness.rs: a loop over four indices that
    remembers only the last `*` it passed, proved against the declarative glob relation. */
module Glob {
  import opened Options

  /** `?` stands for any one character, `*` for any run of characters. */
  ghost predicate Matches(pattern: string, value: string)
    decreases |pattern|
  {
    if pattern == [] then value == []
    else if pattern[0] == '*' then exists k :: 0 <= k <= |value| && Matches(pattern[1..], value[k..])
    else value != [] && (pattern[0] == '?' || pattern[0] == value[0]) && Matches(pattern[1..], value[1..])
  }

  predicate AllStars(pattern: string) {
    forall i :: 0 <= i < |pattern| ==> pattern[i] == '*'
  }

  /** The state the loop carries: `star` is the last star taken literally as a wildcard and
      `starValue` the value index at which its run currently ends. */
  ghost predicate LoopState(pattern: string, value: string, p: nat, v: nat, star: Option<nat>, starValue: nat) {
    && p <= |pattern| && starValue <= v <= |value|
    && (star.Some? ==> star.value < p && pattern[star.value] == '*')
  }

  /** What the rest of the loop answers from a given state. */
  predicate Scan(pattern: string, value: string, p: nat, v: nat, star: Option<nat>, starValue: nat)
    requires LoopState(pattern, value, p, v, star, starValue)
    decreases |value| - starValue, |pattern| - p
  {
    if v == |value| then AllStars(pattern[p..])
    else if p < |pattern| && (pattern[p] == '?' || pattern[p] == value[v]) then
      Scan(pattern, value, p + 1, v + 1, star, starValue)
    else if p < |pattern| && pattern[p] == '*' then
      Scan(pattern, value, p + 1, v, Some(p), v)
    else if star.Some? then
      Scan(pattern, value, star.value + 1, starValue + 1, star, starValue + 1)
    else false
  }

  predicate Accepts(pattern: string, value: string) {
    Scan(pattern, value, 0, 0, None, 0)
  }

  /** The match can still succeed where the loop stands, or by lengthening the last star's run. */
  ghost predicate CanSucceed(pattern: string, value: string, p: nat, v: nat, star: Option<nat>, starValue: nat)
    requires LoopState(pattern, value, p, v, star, starValue)
  {
    || Matches(pattern[p..], value[v..])
    || (star.Some? && exists k :: starValue < k <= |value| && Matches(pattern[star.value + 1..], value[k..]))
  }

  lemma {:induction false} StarsMatchNothing(pattern: string)
    ensures AllStars(pattern) == Matches(pattern, [])
  {
    if pattern != [] {
      StarsMatchNothing(pattern[1..]);
      if pattern[0] == '*' {
        assert AllStars(pattern) == AllStars(pattern[1..]) by {
          if AllStars(pattern[1..]) {
            forall i | 0 <= i < |pattern| ensures pattern[i] == '*' {
              if i > 0 { assert pattern[1..][i - 1] == '*'; }
            }
          }
        }
        var empty: string := [];
        assert empty[0..] == [];
      } else {
        assert !AllStars(pattern);
      }
    }
  }

  /** A star may absorb any extra prefix of the value. */
  lemma {:induction false} StarAbsorbs(pattern: string, value: string, j: nat)
    requires pattern != [] && pattern[0] == '*' && j <= |value|
    requires Matches(pattern, value[j..])
    ensures Matches(pattern, value)
  {
    var k :| 0 <= k <= |value[j..]| && Matches(pattern[1..], value[j..][k..]);
    assert value[j..][k..] == value[j + k..];
  }

  lemma {:induction false} StarStep(pattern: string, value: string, k: nat)
    requires pattern != [] && pattern[0] == '*' && k <= |value|
    requires Matches(pattern[1..], value[k..])
    ensures Matches(pattern, value)
  {
  }

  /** Soundness of every state: an accepting run never accepts more than the relation does. */
  lemma {:induction false} ScanSound(pattern: string, value: string, p: nat, v: nat, star: Option<nat>, starValue: nat)
    requires LoopState(pattern, value, p, v, star, starValue)
    requires Scan(pattern, value, p, v, star, starValue)
    ensures CanSucceed(pattern, value, p, v, star, starValue)
    decreases |value| - starValue, |pattern| - p
  {
    if v == |value| {
      StarsMatchNothing(pattern[p..]);
      assert value[v..] == [];
    } else if p < |pattern| && (pattern[p] == '?' || pattern[p] == value[v]) {
      ScanSound(pattern, value, p + 1, v + 1, star, starValue);
      assert pattern[p..][1..] == pattern[p + 1..] && value[v..][1..] == value[v + 1..];
      if Matches(pattern[p + 1..], value[v + 1..]) && pattern[p] == '*' {
        StarStep(pattern[p..], value[v..], 1);
      }
    } else if p < |pattern| && pattern[p] == '*' {
      ScanSound(pattern, value, p + 1, v, Some(p), v);
      assert pattern[p..][1..] == pattern[p + 1..];
      var k :| v <= k <= |value| && Matches(pattern[p + 1..], value[k..]);
      assert value[v..][k - v..] == value[k..];
      StarStep(pattern[p..], value[v..], k - v);
    } else {
      ScanSound(pattern, value, star.value + 1, starValue + 1, star, starValue + 1);
    }
  }

  /** The pattern characters consumed since the last star are all single-character ones. */
  ghost predicate Aligned(pattern: string, p: nat, v: nat, star: Option<nat>, starValue: nat) {
    star.Some? ==>
      && star.value < p <= |pattern|
      && '*' !in pattern[star.value + 1..p]
      && v - starValue == p - star.value - 1
  }

  /** A star-free prefix of a pattern consumes exactly its own length. */
  lemma {:induction false} StarFreePrefix(prefix: string, rest: string, value: string)
    requires '*' !in prefix && Matches(prefix + rest, value)
    ensures |prefix| <= |value| && Matches(rest, value[|prefix|..])
  {
    if prefix == [] {
      assert prefix + rest == rest && value[0..] == value;
    } else {
      Peeled(prefix, rest);
      MatchesHead(prefix[0], prefix[1..] + rest, value);
      StarFreePrefix(prefix[1..], rest, value[1..]);
      Dropped(value, |prefix|);
    }
  }

  lemma {:induction false} MatchesHead(c: char, pattern: string, value: string)
    requires c != '*' && Matches([c] + pattern, value)
    ensures value != [] && Matches(pattern, value[1..])
  {
    assert ([c] + pattern)[1..] == pattern;
  }

  lemma {:induction false} Peeled(prefix: string, rest: string)
    requires prefix != []
    ensures prefix + rest == [prefix[0]] + (prefix[1..] + rest)
  {
  }

  lemma {:induction false} Dropped(value: string, n: nat)
    requires 0 < n && n - 1 <= |value| - 1
    ensures value[1..][n - 1..] == value[n..]
  {
  }

  /** The exchange argument: when the loop reaches a new star, every success still open to
      the previous star is open to the new one, so the previous one may be forgotten. */
  lemma {:induction false} NewStarSubsumesOld(pattern: string, value: string, p: nat, v: nat, star: nat, starValue: nat, k: nat)
    requires LoopState(pattern, value, p, v, Some(star), starValue)
    requires Aligned(pattern, p, v, Some(star), starValue)
    requires p < |pattern| && pattern[p] == '*'
    requires starValue < k <= |value| && Matches(pattern[star + 1..], value[k..])
    ensures Matches(pattern[p..], value[v..])
  {
    var gap := pattern[star + 1..p];
    assert pattern[star + 1..] == gap + pattern[p..];
    StarFreePrefix(gap, pattern[p..], value[k..]);
    assert value[k..][|gap|..] == value[v..][k - starValue..];
    StarAbsorbs(pattern[p..], value[v..], k - starValue);
  }

  /** At the end of the value, nothing longer is left for the last star either. */
  lemma {:induction false} EndOfValue(pattern: string, value: string, p: nat, star: Option<nat>, starValue: nat)
    requires LoopState(pattern, value, p, |value|, star, starValue) && Aligned(pattern, p, |value|, star, starValue)
    requires CanSucceed(pattern, value, p, |value|, star, starValue)
    ensures AllStars(pattern[p..])
  {
    assert value[|value|..] == [];
    StarsMatchNothing(pattern[p..]);
    if !Matches(pattern[p..], []) {
      var k :| starValue < k <= |value| && Matches(pattern[star.value + 1..], value[k..]);
      var gap := pattern[star.value + 1..p];
      assert pattern[star.value + 1..] == gap + pattern[p..];
      StarFreePrefix(gap, pattern[p..], value[k..]);
      assert false;
    }
  }

  /** Reaching a star with a success still open, the new star has it open. */
  lemma {:induction false} StarTakesOver(pattern: string, value: string, p: nat, v: nat, star: Option<nat>, starValue: nat)
    requires LoopState(pattern, value, p, v, star, starValue) && Aligned(pattern, p, v, star, starValue)
    requires CanSucceed(pattern, value, p, v, star, starValue)
    requires p < |pattern| && pattern[p] == '*'
    ensures CanSucceed(pattern, value, p + 1, v, Some(p), v)
  {
    if !Matches(pattern[p..], value[v..]) {
      var k :| starValue < k <= |value| && Matches(pattern[star.value + 1..], value[k..]);
      NewStarSubsumesOld(pattern, value, p, v, star.value, starValue, k);
    }
    assert pattern[p..][1..] == pattern[p + 1..];
    var j :| 0 <= j <= |value[v..]| && Matches(pattern[p + 1..], value[v..][j..]);
    assert value[v..][j..] == value[v + j..];
  }

  /** A character consumed literally loses no success. */
  lemma {:induction false} LiteralKeeps(pattern: string, value: string, p: nat, v: nat, star: Option<nat>, starValue: nat)
    requires LoopState(pattern, value, p, v, star, starValue) && Aligned(pattern, p, v, star, starValue)
    requires CanSucceed(pattern, value, p, v, star, starValue)
    requires v < |value| && p < |pattern| && pattern[p] != '*' && (pattern[p] == '?' || pattern[p] == value[v])
    ensures CanSucceed(pattern, value, p + 1, v + 1, star, starValue) && Aligned(pattern, p + 1, v + 1, star, starValue)
  {
    assert pattern[p..][1..] == pattern[p + 1..] && value[v..][1..] == value[v + 1..];
    if star.Some? {
      assert pattern[star.value + 1..p + 1] == pattern[star.value + 1..p] + [pattern[p]];
    }
  }

  /** After a mismatch only a longer run of the last star can succeed. */
  lemma {:induction false} MismatchRetries(pattern: string, value: string, p: nat, v: nat, star: Option<nat>, starValue: nat)
    requires LoopState(pattern, value, p, v, star, starValue)
    requires CanSucceed(pattern, value, p, v, star, starValue)
    requires v < |value| && (p < |pattern| ==> pattern[p] != '*' && pattern[p] != '?' && pattern[p] != value[v])
    ensures star.Some? && CanSucceed(pattern, value, star.value + 1, starValue + 1, star, starValue + 1)
  {
    assert !Matches(pattern[p..], value[v..]);
    var k :| starValue < k <= |value| && Matches(pattern[star.value + 1..], value[k..]);
  }

  lemma {:induction false} ScanComplete(pattern: string, value: string, p: nat, v: nat, star: Option<nat>, starValue: nat)
    requires LoopState(pattern, value, p, v, star, starValue)
    requires '*' !in pattern || '*' !in value
    requires Aligned(pattern, p, v, star, starValue)
    requires CanSucceed(pattern, value, p, v, star, starValue)
    ensures Scan(pattern, value, p, v, star, starValue)
    decreases |value| - starValue, |pattern| - p
  {
    if v == |value| {
      EndOfValue(pattern, value, p, star, starValue);
    } else if p < |pattern| && (pattern[p] == '?' || pattern[p] == value[v]) {
      LiteralKeeps(pattern, value, p, v, star, starValue);
      ScanComplete(pattern, value, p + 1, v + 1, star, starValue);
    } else if p < |pattern| && pattern[p] == '*' {
      StarTakesOver(pattern, value, p, v, star, starValue);
      ScanComplete(pattern, value, p + 1, v, Some(p), v);
    } else {
      MismatchRetries(pattern, value, p, v, star, starValue);
      ScanComplete(pattern, value, star.value + 1, starValue + 1, star, starValue + 1);
    }
  }

  /** wildcard_chars_match: the loop, with the number of iterations it takes. */
  method WildcardCharsMatch(pattern: string, value: string) returns (matched: bool, ghost iterations: nat)
    ensures matched == Accepts(pattern, value)
    ensures matched ==> Matches(pattern, value)
    ensures '*' !in pattern || '*' !in value ==> matched == Matches(pattern, value)
    ensures iterations <= |value| * (|pattern| + 1) + |pattern|
  {
    var p: nat, v: nat := 0, 0;
    var star: Option<nat> := None;
    var starValue: nat := 0;
    iterations := 0;
    assert pattern[0..] == pattern && value[0..] == value;
    if Accepts(pattern, value) { ScanSound(pattern, value, 0, 0, None, 0); }
    if '*' !in pattern || '*' !in value { AgreesWithoutSharedStar(pattern, value); }
    while v < |value|
      invariant LoopState(pattern, value, p, v, star, starValue)
      invariant Scan(pattern, value, p, v, star, starValue) == Accepts(pattern, value)
      invariant iterations + (|value| - starValue) * (|pattern| + 1) + |pattern| - p <= |value| * (|pattern| + 1) + |pattern|
      decreases |value| - starValue, |pattern| - p
    {
      iterations := iterations + 1;
      if p < |pattern| && (pattern[p] == '?' || pattern[p] == value[v]) {
        p, v := p + 1, v + 1;
      } else if p < |pattern| && pattern[p] == '*' {
        RunsShrink(|value|, starValue, v, |pattern| + 1);
        star, p, starValue := Some(p), p + 1, v;
      } else if star.Some? {
        RunsShrink(|value|, starValue, starValue + 1, |pattern| + 1);
        p, starValue := star.value + 1, starValue + 1;
        v := starValue;
      } else {
        RunsShrink(|value|, starValue, |value|, |pattern| + 1);
        return false, iterations;
      }
    }
    RunsShrink(|value|, starValue, |value|, |pattern| + 1);
    matched := AllStars(pattern[p..]);
  }

  lemma {:induction false} RunsShrink(n: nat, from: nat, to: nat, m: nat)
    requires from <= to <= n
    ensures (n - from) * m == (n - to) * m + (to - from) * m
    ensures from < to ==> (to - from) * m >= m
  {
    var kept: nat, dropped: nat := n - to, to - from;
    assert (kept + dropped) * m == kept * m + dropped * m;
    if dropped > 0 { assert dropped * m == (dropped - 1) * m + m && (dropped - 1) * m >= 0; }
  }

  // ---- Exactly when the loop and the relation agree ----

  /** Moving a scan one position to the right, behind a character the loop has consumed. */
  lemma {:induction false} ScanShift(c: char, pattern: string, value: string, p: nat, v: nat, star: Option<nat>, starValue: nat)
    requires LoopState(pattern, value, p, v, star, starValue)
    ensures LoopState([c] + pattern, [c] + value, p + 1, v + 1, Later(star), starValue + 1)
    ensures Scan([c] + pattern, [c] + value, p + 1, v + 1, Later(star), starValue + 1) == Scan(pattern, value, p, v, star, starValue)
    decreases |value| - starValue, |pattern| - p
  {
    var cp, cv := [c] + pattern, [c] + value;
    assert cp[p + 1..] == pattern[p..];
    if v == |value| {
    } else if p < |pattern| && (pattern[p] == '?' || pattern[p] == value[v]) {
      ScanShift(c, pattern, value, p + 1, v + 1, star, starValue);
    } else if p < |pattern| && pattern[p] == '*' {
      ScanShift(c, pattern, value, p + 1, v, Some(p), v);
    } else if star.Some? {
      ScanShift(c, pattern, value, star.value + 1, starValue + 1, star, starValue + 1);
    }
  }

  function Later(star: Option<nat>): Option<nat> {
    if star.Some? then Some(star.value + 1) else None
  }

  /** With no star taken yet, the saved value index is never read. */
  lemma {:induction false} NoStarNoMemory(pattern: string, value: string, p: nat, v: nat, one: nat, other: nat)
    requires p <= |pattern| && one <= v <= |value| && other <= v
    ensures Scan(pattern, value, p, v, None, one) == Scan(pattern, value, p, v, None, other)
    decreases |value| - v
  {
    if v < |value| && p < |pattern| && (pattern[p] == '?' || pattern[p] == value[v]) {
      NoStarNoMemory(pattern, value, p + 1, v + 1, one, other);
    }
  }

  /** The literal test comes first, so a common prefix is always consumed character by
      character, stars included. */
  lemma {:induction false} CommonPrefixIsLiteral(prefix: string, pattern: string, value: string)
    ensures Accepts(prefix + pattern, prefix + value) == Accepts(pattern, value)
  {
    if prefix == [] {
      assert prefix + pattern == pattern && prefix + value == value;
    } else {
      var tail := prefix[1..];
      CommonPrefixIsLiteral(tail, pattern, value);
      assert prefix + pattern == [prefix[0]] + (tail + pattern) && prefix + value == [prefix[0]] + (tail + value);
      ScanShift(prefix[0], tail + pattern, tail + value, 0, 0, None, 0);
      NoStarNoMemory(prefix + pattern, prefix + value, 1, 1, 0, 1);
    }
  }

  lemma {:induction false} CommonPrefixMatches(prefix: string, pattern: string, value: string)
    requires Matches(pattern, value)
    ensures Matches(prefix + pattern, prefix + value)
  {
    if prefix == [] {
      assert prefix + pattern == pattern && prefix + value == value;
    } else {
      CommonPrefixMatches(prefix[1..], pattern, value);
      assert (prefix + pattern)[1..] == prefix[1..] + pattern && (prefix + value)[1..] == prefix[1..] + value;
      if prefix[0] == '*' { StarStep(prefix + pattern, prefix + value, 1); }
    }
  }

  /** The shortest value a pattern matches, when its question marks stand for themselves. */
  function Shortest(pattern: string): string {
    if pattern == [] then []
    else if pattern[0] == '*' then Shortest(pattern[1..])
    else [pattern[0]] + Shortest(pattern[1..])
  }

  lemma {:induction false} ShortestMatches(pattern: string)
    ensures Matches(pattern, Shortest(pattern))
  {
    if pattern != [] {
      ShortestMatches(pattern[1..]);
      if pattern[0] == '*' {
        assert Shortest(pattern)[0..] == Shortest(pattern);
        StarStep(pattern, Shortest(pattern), 0);
      }
    }
  }

  lemma {:induction false} ShortestIsShortest(pattern: string, value: string)
    requires Matches(pattern, value)
    ensures |Shortest(pattern)| <= |value|
  {
    if pattern != [] {
      if pattern[0] == '*' {
        var k :| 0 <= k <= |value| && Matches(pattern[1..], value[k..]);
        ShortestIsShortest(pattern[1..], value[k..]);
      } else {
        ShortestIsShortest(pattern[1..], value[1..]);
      }
    }
  }

  /** A value on which the pattern `*` + rest goes wrong once its star has been read literally. */
  function Spoiler(rest: string): string {
    if rest == [] then "a"
    else if rest[0] == '*' then "*" + Spoiler(rest[1..])
    else if rest[0] == '?' then Shortest(rest)[1..]
    else "*" + Shortest(rest)
  }

  lemma {:induction false} SpoilerMatches(rest: string)
    ensures Matches("*" + rest, "*" + Spoiler(rest))
  {
    var w := "*" + Spoiler(rest);
    assert ("*" + rest)[1..] == rest;
    if rest == [] {
      assert w[2..] == [];
      StarStep("*" + rest, w, 2);
    } else if rest[0] == '*' {
      SpoilerMatches(rest[1..]);
      assert rest == "*" + rest[1..] && w[1..] == Spoiler(rest);
      StarStep("*" + rest, w, 1);
    } else if rest[0] == '?' {
      SpoilerOfOne(rest);
    } else {
      ShortestMatches(rest);
      assert w[2..] == Shortest(rest);
      StarStep("*" + rest, w, 2);
    }
  }

  lemma {:induction false} SpoilerOfOne(rest: string)
    requires rest != [] && rest[0] == '?'
    ensures Matches("*" + rest, "*" + Spoiler(rest))
  {
    var w := "*" + Spoiler(rest);
    ShortestMatches(rest[1..]);
    assert ("*" + rest)[1..] == rest && w[0..] == w && w[1..] == Shortest(rest[1..]);
    assert Matches(rest, w);
    StarStep("*" + rest, w, 0);
  }

  lemma {:induction false} SpoilerRejected(rest: string)
    ensures !Accepts(rest, Spoiler(rest))
  {
    var w := Spoiler(rest);
    if rest == [] {
    } else if rest[0] == '*' {
      SpoilerRejected(rest[1..]);
      assert rest == "*" + rest[1..];
      CommonPrefixIsLiteral("*", rest[1..], Spoiler(rest[1..]));
    } else if Accepts(rest, w) {
      ScanSound(rest, w, 0, 0, None, 0);
      assert rest[0..] == rest && w[0..] == w;
      if rest[0] == '?' { ShortestIsShortest(rest, w); }
      assert false;
    }
  }

  lemma {:induction false} SplitAtStar(s: string) returns (before: string, after: string)
    requires '*' in s
    ensures s == before + ("*" + after)
  {
    var i :| 0 <= i < |s| && s[i] == '*';
    before, after := s[..i], s[i + 1..];
  }

  /** For a fixed value, the loop agrees with the relation on every pattern exactly when the
      value holds no star. */
  lemma {:induction false} AgreesOnValueIff(value: string)
    ensures (forall pattern: string :: Accepts(pattern, value) == Matches(pattern, value)) <==> '*' !in value
  {
    if '*' in value {
      var before, after := SplitAtStar(value);
      var tail := if after == [] then "?" else "";
      var pattern := before + ("*" + tail);
      CommonPrefixIsLiteral(before, "*" + tail, "*" + after);
      CommonPrefixIsLiteral("*", tail, after);
      assert ("*" + tail)[1..] == tail;
      if after == [] {
        assert ("*" + after)[0..] == "*";
        assert Matches("?", "*") by { assert "*"[1..] == "" && "?"[1..] == ""; }
        StarStep("*" + tail, "*" + after, 0);
      } else {
        assert ("*" + after)[|after| + 1..] == [];
        StarStep("*" + tail, "*" + after, |after| + 1);
      }
      CommonPrefixMatches(before, "*" + tail, "*" + after);
      assert !Accepts(pattern, value) && Matches(pattern, value);
    } else {
      forall pattern: string ensures Accepts(pattern, value) == Matches(pattern, value) {
        AgreesWithoutSharedStar(pattern, value);
      }
    }
  }

  /** For a fixed pattern, the loop agrees with the relation on every value exactly when the
      pattern holds no star: every pattern with a star has a value it wrongly rejects. */
  lemma {:induction false} AgreesOnPatternIff(pattern: string)
    ensures (forall value: string :: Accepts(pattern, value) == Matches(pattern, value)) <==> '*' !in pattern
  {
    if '*' in pattern {
      var before, rest := SplitAtStar(pattern);
      var value := before + ("*" + Spoiler(rest));
      SpoilerMatches(rest);
      SpoilerRejected(rest);
      CommonPrefixIsLiteral(before, "*" + rest, "*" + Spoiler(rest));
      CommonPrefixIsLiteral("*", rest, Spoiler(rest));
      CommonPrefixMatches(before, "*" + rest, "*" + Spoiler(rest));
      assert !Accepts(pattern, value) && Matches(pattern, value);
    } else {
      forall value: string ensures Accepts(pattern, value) == Matches(pattern, value) {
        AgreesWithoutSharedStar(pattern, value);
      }
    }
  }

  lemma {:induction false} AgreesWithoutSharedStar(pattern: string, value: string)
    requires '*' !in pattern || '*' !in value
    ensures Accepts(pattern, value) == Matches(pattern, value)
  {
    assert pattern[0..] == pattern && value[0..] == value;
    if Accepts(pattern, value) { ScanSound(pattern, value, 0, 0, None, 0); }
    if Matches(pattern, value) { ScanComplete(pattern, value, 0, 0, None, 0); }
  }

  /** For instance a star does not match a value that starts with one. */
  lemma {:induction false} StarMissesStar()
    ensures Matches("*", "*a") && !Accepts("*", "*a")
  {
    var p, v := "*", "*a";
    assert p[1..] == "" && v[2..] == "" && Matches("", "");
    assert Matches(p[1..], v[2..]);
    assert !Scan(p, v, 1, 1, None, 0);
  }
}
