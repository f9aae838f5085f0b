/** custos/policy_engine.py `_luhn_valid`: the check digit of ISO/IEC 7812-1, Annex B. */
module Luhn {
  type Digit = d: int | 0 <= d <= 9

  /** What one digit adds to the checksum. */
  function Weight(d: Digit, doubled: bool): int {
    if !doubled then d else if 2 * d > 9 then 2 * d - 9 else 2 * d
  }

  /** The standard counts from the right: the check digit is not doubled, the digit before it is, and
      so on alternately. The first of |s| digits is therefore doubled when |s| is even. */
  function Checksum(s: seq<Digit>): int {
    if s == [] then 0 else Weight(s[0], |s| % 2 == 0) + Checksum(s[1..])
  }

  predicate Accepts(s: seq<Digit>) {
    13 <= |s| <= 19 && Checksum(s) % 10 == 0
  }

  lemma SameParity(i: nat, n: nat)
    requires i <= n
    ensures i % 2 == n % 2 <==> (n - i) % 2 == 0
  {
  }

  method LuhnValid(digits: seq<Digit>) returns (ok: bool)
    ensures ok == Accepts(digits)
  {
    if |digits| < 13 || |digits| > 19 { return false; }
    var checksum := 0;
    var parity := |digits| % 2;
    for i := 0 to |digits|
      invariant checksum + Checksum(digits[i..]) == Checksum(digits)
    {
      SameParity(i, |digits|);
      assert digits[i..][0] == digits[i] && |digits[i..]| == |digits| - i;
      var d: int := digits[i];
      if i % 2 == parity {
        d := d * 2;
        if d > 9 { d := d - 9; }
      }
      checksum := checksum + d;
      assert digits[i..][1..] == digits[i + 1..];
    }
    return checksum % 10 == 0;
  }

  /** The checksum grows to the left by the weights of the standard: the last digit counts as it is, the one before it
      doubled with its digits added, and so on alternately. */
  lemma {:induction false} ChecksumFromRight(s: seq<Digit>, a: Digit, b: Digit)
    ensures Checksum([b]) == b
    ensures Checksum([a, b]) == (if a >= 5 then 2 * a - 9 else 2 * a) + b
    ensures Checksum(s + [a, b]) == Checksum(s) + Checksum([a, b])
  {
    assert [b][1..] == [] && [a, b][1..] == [b];
    if s == [] {
      assert s + [a, b] == [a, b];
    } else {
      ChecksumFromRight(s[1..], a, b);
      assert (s + [a, b])[1..] == s[1..] + [a, b];
    }
  }

  /** The check digit of a number still without one. */
  function CheckDigit(s: seq<Digit>): Digit {
    (10 - Checksum(s + [0]) % 10) % 10
  }

  /** A number of 12 to 18 digits is accepted with exactly one digit appended, its check digit; no number outside
      13 to 19 digits is. */
  lemma {:induction false} CheckDigitCompletes(s: seq<Digit>, d: Digit)
    ensures Accepts(s + [d]) <==> 12 <= |s| <= 18 && d == CheckDigit(s)
  {
    AppendDigit(s, d);
    AppendDigit(s, 0);
  }

  lemma {:induction false} AppendDigit(s: seq<Digit>, d: Digit)
    ensures Checksum(s + [d]) == Checksum(s + [0]) + d
  {
    if s == [] {
      assert s + [d] == [d] && s + [0] == [0] && [d][1..] == [] && [0][1..] == [];
    } else {
      AppendDigit(s[1..], d);
      assert (s + [d])[1..] == s[1..] + [d] && (s + [0])[1..] == s[1..] + [0];
    }
  }

  lemma {:induction false} ChangeDigit(s: seq<Digit>, i: nat, d: Digit)
    requires i < |s|
    ensures var doubled := (|s| - i) % 2 == 0;
            Checksum(s[i := d]) - Checksum(s) == Weight(d, doubled) - Weight(s[i], doubled)
  {
    if i > 0 {
      assert s[i := d][1..] == s[1..][i - 1 := d];
      ChangeDigit(s[1..], i - 1, d);
    } else {
      assert s[i := d][1..] == s[1..];
    }
  }

  /** Every single-digit error in an accepted number is caught. */
  lemma SingleDigitErrorCaught(s: seq<Digit>, i: nat, d: Digit)
    requires Accepts(s) && i < |s| && d != s[i]
    ensures !Accepts(s[i := d])
  {
    var doubled := (|s| - i) % 2 == 0;
    ChangeDigit(s, i, d);
    WeightInjective(d, s[i], doubled);
    MultipleOfTen(Checksum(s), Weight(d, doubled) - Weight(s[i], doubled));
  }

  lemma WeightInjective(a: Digit, b: Digit, doubled: bool)
    requires a != b
    ensures Weight(a, doubled) != Weight(b, doubled)
    ensures 0 <= Weight(a, doubled) <= 9 && 0 <= Weight(b, doubled) <= 9
  {
  }

  /** Swapping two different neighbours is caught, except 0 with 9, which never is. */
  lemma NeighbourSwap(s: seq<Digit>, i: nat)
    requires Accepts(s) && i + 1 < |s| && s[i] != s[i + 1]
    ensures Accepts(s[i := s[i + 1]][i + 1 := s[i]]) <==> {s[i], s[i + 1]} == {0, 9}
  {
    var a, b := s[i], s[i + 1];
    var first := (|s| - i) % 2 == 0;
    SwapEffect(a, b, first);
    hide Checksum, Weight;
    ChangeDigit(s, i, b);
    ChangeDigit(s[i := b], i + 1, a);
    MultipleOfTen(Checksum(s), SwapDelta(a, b, first));
  }

  /** How far swapping neighbours a and b moves the checksum; `first` says a's place is doubled. */
  function SwapDelta(a: Digit, b: Digit, first: bool): int {
    Weight(b, first) - Weight(a, first) + Weight(a, !first) - Weight(b, !first)
  }

  lemma SwapEffect(a: Digit, b: Digit, first: bool)
    requires a != b
    ensures -10 < SwapDelta(a, b, first) < 10
    ensures SwapDelta(a, b, first) == 0 <==> {a, b} == {0, 9}
  {
    assert {a, b} == {0, 9} <==> (a == 0 && b == 9) || (a == 9 && b == 0) by {
      if {a, b} == {0, 9} {
        assert a in {0, 9} && b in {0, 9};
      }
    }
  }

  lemma MultipleOfTen(sum: int, delta: int)
    requires sum % 10 == 0 && -10 < delta < 10
    ensures (sum + delta) % 10 == 0 <==> delta == 0
  {
  }
}
