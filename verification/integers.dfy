/**
 Decimal integers that saturate.
 */
module Integers {
  import opened Basics
  import opened Scanning

  // From here on one more digit might not fit.
  const NEAR_MAX: int := 0xccc_cccc_cccc_cccc

  predicate IsDigit(ch: byte) {
    DIGIT0 <= ch <= DIGIT0 + 9
  }

  function DigitValue(ch: byte): (v: int)
    requires IsDigit(ch)
    ensures 0 <= v <= 9
  {
    ch as int - DIGIT0 as int
  }

  // The number a digit string denotes.
  function Number(s: seq<byte>): (n: nat)
    requires forall k :: 0 <= k < |s| ==> IsDigit(s[k])
  {
    if s == [] then 0 else 10 * Number(s[..|s| - 1]) + DigitValue(s[|s| - 1])
  }

  // What is kept of a number: the number itself, or the largest integer from 9223372036854775800 on.
  function Saturated(n: nat): (r: int)
    ensures 0 <= r <= INT64_MAX
  {
    if n < 10 * NEAR_MAX then n else INT64_MAX
  }

  // The digits at the front of s, up to the delimiter.
  function Digits(s: seq<byte>, d: byte): (r: seq<byte>)
    ensures forall k :: 0 <= k < |r| ==> IsDigit(r[k]) && r[k] != d
    ensures r <= s && (|r| < |s| ==> !IsDigit(s[|r|]) || s[|r|] == d)
  {
    if s != [] && IsDigit(s[0]) && s[0] != d then [s[0]] + Digits(s[1..], d) else []
  }

  // The value of a text: an optional minus sign and digits, whatever follows the digits being ignored.
  function TextValue(s: seq<byte>, d: byte): (r: int)
    ensures -INT64_MAX <= r <= INT64_MAX
  {
    if s != [] && s[0] == MINUS then -Saturated(Number(Digits(s[1..], d))) else Saturated(Number(Digits(s, d)))
  }

  // Where the parse of the integer at position i stops.
  function IntStop(data: seq<byte>, i: nat, end: nat, d: byte): (r: nat)
    requires i <= end <= |data|
    ensures i <= r <= end
  {
    var first := if i < end && data[i] == MINUS then i + 1 else i;
    first + |Digits(data[first..end], d)|
  }

  lemma NumberStep(data: seq<byte>, first: nat, i: nat)
    requires first <= i < |data| && forall k :: first <= k <= i ==> IsDigit(data[k])
    ensures Number(data[first..i + 1]) == 10 * Number(data[first..i]) + DigitValue(data[i])
  {
    assert data[first..i + 1][..i - first] == data[first..i];
  }

  // One more digit as C evaluates it: the character is added first, and then '0' is taken away. Sums wrap.
  function DigitStep(res: int64, ch: byte): int64 {
    Wrap(Wrap(Wrap(res * 10) + ch as int) - DIGIT0 as int)
  }

  // No intermediate result of the step leaves 64 bits.
  predicate StepFits(res: int64, ch: byte) {
    IsInt64(res * 10) && IsInt64(res * 10 + ch as int) && IsInt64(res * 10 + ch as int - DIGIT0 as int)
  }

  // For the four values before the bound the sum leaves 64 bits, whatever the digit.
  lemma StepFitsExactly(res: int64, ch: byte)
    requires 0 <= res < NEAR_MAX && IsDigit(ch)
    ensures StepFits(res, ch) <==> res <= 922337203685477575
  {
  }

  // One more digit saturates, or gives the next value even if the sum wraps.
  lemma SaturatedStep(n: nat, ch: byte)
    requires IsDigit(ch)
    ensures var res := Saturated(n);
            Saturated(10 * n + DigitValue(ch)) == if res >= NEAR_MAX then INT64_MAX else DigitStep(res, ch)
  {
  }

  // Some step of the loop over the digits leaves 64 bits.
  ghost predicate Leaves(digits: seq<byte>)
    requires forall k :: 0 <= k < |digits| ==> IsDigit(digits[k])
  {
    exists k :: 0 <= k < |digits| && LeavesAt(digits, k)
  }

  predicate LeavesAt(digits: seq<byte>, k: nat)
    requires k < |digits| && forall j :: 0 <= j < |digits| ==> IsDigit(digits[j])
  {
    var res := Saturated(Number(digits[..k]));
    res < NEAR_MAX && !StepFits(res, digits[k])
  }

  predicate InGap(n: nat) {
    9223372036854775760 <= n <= 9223372036854775799
  }

  lemma LeavesAtGap(digits: seq<byte>, k: nat)
    requires k < |digits| && forall j :: 0 <= j < |digits| ==> IsDigit(digits[j])
    ensures LeavesAt(digits, k) <==> InGap(Number(digits[..k + 1]))
  {
    assert digits[..k + 1][..k] == digits[..k];
  }

  // A step leaves 64 bits exactly if the digits up to there denote one of forty numbers.
  lemma LeavesExactly(digits: seq<byte>)
    requires forall k :: 0 <= k < |digits| ==> IsDigit(digits[k])
    ensures Leaves(digits) <==> exists k :: 0 <= k <= |digits| && InGap(Number(digits[..k]))
  {
    hide LeavesAt, InGap;
    forall k | 0 <= k < |digits| ensures LeavesAt(digits, k) <==> InGap(Number(digits[..k + 1])) {
      LeavesAtGap(digits, k);
    }
    if k :| 0 <= k <= |digits| && InGap(Number(digits[..k])) {
      assert k > 0 by {
        EmptyNotInGap();
      }
      assert LeavesAt(digits, k - 1);
    }
  }

  lemma EmptyNotInGap()
    ensures !InGap(Number([]))
  {
  }

  lemma LeavesStep(data: seq<byte>, first: nat, i: nat)
    requires first <= i < |data| && forall k :: first <= k <= i ==> IsDigit(data[k])
    ensures var res := Saturated(Number(data[first..i]));
            Leaves(data[first..i + 1]) <==> Leaves(data[first..i]) || (res < NEAR_MAX && !StepFits(res, data[i]))
  {
    hide StepFits, Saturated, Number;
    var before, after := data[first..i], data[first..i + 1];
    assert after[..i - first] == before;
    forall k | 0 <= k < i - first ensures LeavesAt(after, k) <==> LeavesAt(before, k) {
      assert after[..k] == before[..k];
    }
    assert LeavesAt(after, i - first) <==>
           var res := Saturated(Number(before));
           res < NEAR_MAX && !StepFits(res, data[i]);
  }

  lemma NoDigits(data: seq<byte>, i: nat)
    requires i <= |data|
    ensures Saturated(Number(data[i..i])) == 0 && !Leaves(data[i..i])
  {
  }

  // The digits behind an optional minus sign.
  function Magnitude(s: seq<byte>, d: byte): (r: seq<byte>)
    ensures forall k :: 0 <= k < |r| ==> IsDigit(r[k])
  {
    if s != [] && s[0] == MINUS then Digits(s[1..], d) else Digits(s, d)
  }

  // Parses from position start up to the delimiter or the first byte that is no digit. The byte at end, behind the
  // record, stops it.
  method ParseInt64(data: seq<byte>, start: nat, d: byte, ghost end: nat)
    returns (value: int64, i: nat, ok: bool, ghost leaves: bool)
    requires start <= end < |data| && !IsDigit(data[end]) && data[end] != MINUS
    ensures i == IntStop(data, start, end, d) && (ok <==> data[i] == d)
    ensures value == TextValue(data[start..end], d)
    ensures leaves <==> Leaves(Magnitude(data[start..end], d))
  {
    hide Number, Saturated, Digits, Magnitude, IntStop, TextValue, Leaves, StepFits, DigitStep;
    var sign := 1;
    i := start;
    if data[i] == MINUS {
      i := i + 1;
      sign := -1;
    }
    ghost var first := i;
    var res: int64 := 0;
    ok, leaves := true, false;
    NoDigits(data, first);
    while data[i] != d
      invariant first <= i <= end && ok
      invariant forall k :: first <= k < i ==> IsDigit(data[k]) && data[k] != d
      invariant res == Saturated(Number(data[first..i]))
      invariant leaves <==> Leaves(data[first..i])
      decreases end - i
    {
      if !IsDigit(data[i]) {
        ok := false;
        break;
      }
      NumberStep(data, first, i);
      SaturatedStep(Number(data[first..i]), data[i]);
      LeavesStep(data, first, i);
      if res >= NEAR_MAX {
        res := INT64_MAX;
      } else {
        leaves := leaves || !StepFits(res, data[i]);
        res := DigitStep(res, data[i]);
      }
      i := i + 1;
    }
    value := res * sign;
    ParsedValue(data, start, first, i, end, d);
  }

  lemma ParsedValue(data: seq<byte>, start: nat, first: nat, i: nat, end: nat, d: byte)
    requires start <= first <= i <= end < |data| && !IsDigit(data[end]) && data[end] != MINUS
    requires first == if data[start] == MINUS then start + 1 else start
    requires forall k :: first <= k < i ==> IsDigit(data[k]) && data[k] != d
    requires !IsDigit(data[i]) || data[i] == d
    ensures var n := Saturated(Number(data[first..i]));
            TextValue(data[start..end], d) == if data[start] == MINUS then -n else n
    ensures IntStop(data, start, end, d) == i && Magnitude(data[start..end], d) == data[first..i]
  {
    hide Number, Saturated, Digits;
    var s := data[first..end];
    assert forall k :: 0 <= k < |s| ==> s[k] == data[first + k];
    DigitsAre(s, i - first, d);
    assert s[..i - first] == data[first..i];
    if start < end {
      assert data[start..end][0] == data[start];
    }
    if data[start] == MINUS {
      assert data[start..end][1..] == s;
    }
  }

  lemma {:induction false} DigitsAre(s: seq<byte>, n: nat, d: byte)
    requires n <= |s| && (n < |s| ==> !IsDigit(s[n]) || s[n] == d)
    requires forall k :: 0 <= k < n ==> IsDigit(s[k]) && s[k] != d
    ensures Digits(s, d) == s[..n]
  {
    if n > 0 {
      DigitsAre(s[1..], n - 1, d);
      assert s[..n] == [s[0]] + s[1..][..n - 1];
    }
  }

  // Exact below the bound, saturated from it on: the eight largest 64-bit integers but one come out too large.
  lemma TextValueExact(s: seq<byte>, d: byte)
    requires forall k :: 0 <= k < |s| ==> IsDigit(s[k]) && s[k] != d
    ensures TextValue(s, d) == Number(s) <==> Number(s) < 9223372036854775800 || Number(s) == INT64_MAX
    ensures Number(s) >= 9223372036854775800 ==> TextValue(s, d) == INT64_MAX
    ensures TextValue([MINUS] + s, d) == -TextValue(s, d)
  {
    DigitsAre(s, |s|, d);
    assert s[..|s|] == s;
    assert ([MINUS] + s)[1..] == s;
  }

  // What follows the digits is ignored, and without digits the value is zero.
  lemma TextValueStops(s: seq<byte>, rest: seq<byte>, d: byte)
    requires forall k :: 0 <= k < |s| ==> IsDigit(s[k]) && s[k] != d
    requires rest != [] ==> rest[0] == d || !IsDigit(rest[0])
    ensures s != [] || rest == [] || rest[0] != MINUS ==> TextValue(s + rest, d) == TextValue(s, d)
    ensures TextValue([MINUS] + s + rest, d) == -TextValue(s, d)
    ensures s == [] ==> TextValue(s, d) == 0
  {
    DigitsAre(s + rest, |s|, d);
    DigitsAre(s, |s|, d);
    assert (s + rest)[..|s|] == s == s[..|s|];
    assert ([MINUS] + s + rest)[1..] == s + rest;
  }

  lemma {:induction false} DigitsPrefix(s: seq<byte>, n: nat, d: byte)
    requires n <= |s| && (n < |s| ==> s[n] == d || !IsDigit(s[n]))
    ensures Digits(s, d) == Digits(s[..n], d)
  {
    if n > 0 {
      assert s[..n][1..] == s[1..][..n - 1];
      DigitsPrefix(s[1..], n - 1, d);
    }
  }

  // One or two digits, or a minus sign and a digit.
  lemma SmallNumbers(a: byte, b: byte, d: byte)
    requires IsDigit(a) && IsDigit(b) && d != a && d != b
    ensures TextValue([], d) == 0 && TextValue([a], d) == DigitValue(a) && TextValue([MINUS, a], d) == -DigitValue(a)
    ensures TextValue([a, b], d) == 10 * DigitValue(a) + DigitValue(b)
  {
    DigitsAre([a], 1, d);
    DigitsAre([a, b], 2, d);
    assert [a][..1] == [a] && [a, b][..2] == [a, b] && [MINUS, a][1..] == [a];
    assert Number([a]) == DigitValue(a) by {
      assert [a][..0] == [];
    }
    assert [a, b][..1] == [a];
  }

  // ---------- numbers as they are written ----------

  function Decimal(n: nat): (s: seq<byte>)
    ensures s != [] && forall k :: 0 <= k < |s| ==> IsDigit(s[k])
  {
    (if n < 10 then [] else Decimal(n / 10)) + [DIGIT0 + (n % 10) as byte]
  }

  lemma {:induction false} DecimalDenotes(n: nat)
    ensures Number(Decimal(n)) == n
  {
    var s := Decimal(n);
    if n >= 10 {
      DecimalDenotes(n / 10);
      assert s[..|s| - 1] == Decimal(n / 10);
    } else {
      assert s[..|s| - 1] == [];
    }
  }

  // A 64-bit integer at whose last digit the loop leaves 64 bits: it is read right only if the sum wraps.
  lemma GapIsRead(n: nat, d: byte)
    requires InGap(n) && !IsDigit(d)
    ensures Leaves(Decimal(n)) && TextValue(Decimal(n), d) == n
  {
    var s := Decimal(n);
    DecimalDenotes(n);
    assert s[..|s|] == s;
    LeavesExactly(s);
    TextValueExact(s, d);
  }
}
