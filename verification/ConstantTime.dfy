/** The bearer-token comparison of crates/app-server/src/lib.rs: it never stops early, and collects
    every difference in one word. Words are natural numbers with the bitwise operators spelled
    out; neither operator leaves the width of its operands. */
module ConstantTime {

  type Byte = n: nat | n < 256

  function Xor(m: nat, n: nat): nat {
    if m == 0 && n == 0 then 0 else (if m % 2 == n % 2 then 0 else 1) + 2 * Xor(m / 2, n / 2)
  }

  function Or(m: nat, n: nat): nat {
    if m == 0 && n == 0 then 0 else (if m % 2 == 0 && n % 2 == 0 then 0 else 1) + 2 * Or(m / 2, n / 2)
  }

  lemma {:induction false} XorIsZeroIff(m: nat, n: nat)
    ensures Xor(m, n) == 0 <==> m == n
  {
    if m != 0 || n != 0 { XorIsZeroIff(m / 2, n / 2); }
  }

  lemma {:induction false} OrIsZeroIff(m: nat, n: nat)
    ensures Or(m, n) == 0 <==> m == 0 && n == 0
  {
    if m != 0 || n != 0 { OrIsZeroIff(m / 2, n / 2); }
  }

  /** A width that holds both operands holds the result. */
  lemma {:induction false} WithinWidth(m: nat, n: nat, width: nat)
    requires m < Power(width) && n < Power(width)
    ensures Xor(m, n) < Power(width) && Or(m, n) < Power(width)
  {
    if m != 0 || n != 0 { WithinWidth(m / 2, n / 2, width - 1); }
  }

  function Power(width: nat): nat {
    if width == 0 then 1 else 2 * Power(width - 1)
  }

  function At(s: seq<Byte>, i: nat): Byte {
    if i < |s| then s[i] else 0
  }

  function Larger(m: nat, n: nat): nat {
    if m < n then n else m
  }

  /** constant_time_eq: true exactly for equal byte strings, whatever their lengths, after as many
      rounds as the longer one is long. */
  method ConstantTimeEq(a: seq<Byte>, b: seq<Byte>) returns (equal: bool, ghost rounds: nat)
    ensures equal <==> a == b
    ensures rounds == Larger(|a|, |b|)
  {
    var diff := Xor(|a|, |b|);
    XorIsZeroIff(|a|, |b|);
    rounds := 0;
    for i := 0 to Larger(|a|, |b|)
      invariant rounds == i
      invariant diff == 0 <==> |a| == |b| && forall k :: 0 <= k < i ==> At(a, k) == At(b, k)
    {
      var difference := Xor(At(a, i), At(b, i));
      XorIsZeroIff(At(a, i), At(b, i));
      OrIsZeroIff(diff, difference);
      diff := Or(diff, difference);
      rounds := rounds + 1;
    }
    equal := diff == 0;
    assert equal ==> forall k :: 0 <= k < |a| ==> a[k] == At(a, k) && b[k] == At(b, k);
  }
}
