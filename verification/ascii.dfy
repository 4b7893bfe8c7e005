/**
 Records as characters: the codes of digits, signs and quotes are those of ASCII.
 */
module Ascii {
  import opened Scanning
  import opened Integers
  import opened Quoted
  import Printing

  predicate IsAscii(s: string) {
    forall k :: 0 <= k < |s| ==> s[k] as int < 128
  }

  function Encoded(s: string): (r: seq<byte>)
    requires IsAscii(s)
    ensures |r| == |s| && forall k :: 0 <= k < |s| ==> r[k] as int == s[k] as int
  {
    if s == "" then [] else [s[0] as int as byte] + Encoded(s[1..])
  }

  lemma EncodedConcat(a: string, b: string)
    requires IsAscii(a) && IsAscii(b)
    ensures IsAscii(a + b) && Encoded(a + b) == Encoded(a) + Encoded(b)
  {
  }

  lemma NumberLast(r: seq<byte>, ch: byte)
    requires (forall k :: 0 <= k < |r| ==> IsDigit(r[k])) && IsDigit(ch)
    ensures (forall k :: 0 <= k < |r + [ch]| ==> IsDigit((r + [ch])[k])) &&
            Number(r + [ch]) == 10 * Number(r) + DigitValue(ch)
  {
    assert (r + [ch])[..|r|] == r;
  }

  lemma DigitEncoded(n: nat)
    requires n < 10
    ensures var s := [Printing.Digit(n)];
            IsAscii(s) && |Encoded(s)| == 1 && IsDigit(Encoded(s)[0]) && DigitValue(Encoded(s)[0]) == n
  {
  }

  lemma DigitsLast(n: nat)
    ensures Printing.Digits(n) == (if n < 10 then "" else Printing.Digits(n / 10)) + [Printing.Digit(n % 10)]
  {
  }

  lemma {:induction false} DigitsDenote(n: nat)
    ensures var s := Printing.Digits(n);
            && IsAscii(s) && (forall k :: 0 <= k < |s| ==> IsDigit(Encoded(s)[k])) && Number(Encoded(s)) == n
  {
    hide Printing.Digits, Printing.Digit, Number, Encoded, IsAscii, IsDigit;
    var front := if n < 10 then "" else Printing.Digits(n / 10);
    DigitsLast(n);
    DigitEncoded(n % 10);
    NothingEncoded();
    if n >= 10 {
      DigitsDenote(n / 10);
    }
    var last := [Printing.Digit(n % 10)];
    EncodedConcat(front, last);
    assert Encoded(last) == [Encoded(last)[0]];
    NumberLast(Encoded(front), Encoded(last)[0]);
  }

  lemma NothingEncoded()
    ensures IsAscii("") && Encoded("") == [] && Number([]) == 0
  {
  }

  // A decimal number as it is printed is read as that number.
  lemma NumbersRead(n: int, d: byte)
    requires -9223372036854775800 < n < 9223372036854775800 && !(48 <= d <= 57)
    ensures var s := Printing.Decimal(n); IsAscii(s) && TextValue(Encoded(s), d) == n
  {
    hide Number, TextValue;
    var digits := Printing.Digits(if n < 0 then -n else n);
    DigitsDenote(if n < 0 then -n else n);
    var r := Encoded(digits);
    TextValueExact(r, d);
    if n < 0 {
      EncodedConcat("-", digits);
      assert Encoded("-") == [MINUS];
    }
  }

  // Every quote twice.
  function Twice(s: string): string {
    if s == "" then "" else (if s[0] == '"' then "\"\"" else [s[0]]) + Twice(s[1..])
  }

  lemma {:induction false} TwiceEncoded(s: string)
    requires IsAscii(s)
    ensures IsAscii(Twice(s)) && Encoded(Twice(s)) == Doubled(Encoded(s))
  {
    if s != "" {
      var head := if s[0] == '"' then "\"\"" else [s[0]];
      TwiceEncoded(s[1..]);
      EncodedConcat(head, Twice(s[1..]));
      assert Encoded(s)[1..] == Encoded(s[1..]);
      assert s[0] == '"' ==> Encoded(head) == [QUOTE, QUOTE];
    }
  }

  // A text between double quotes, with every quote in it twice, is read as that text.
  lemma QuotesRead(s: string)
    requires IsAscii(s)
    ensures var text := "\"" + Twice(s) + "\"";
            && IsAscii(text)
            && QStr(Encoded(text) + [0], 0, |text|) == (Encoded(s), |text|)
  {
    hide QStr;
    TwiceEncoded(s);
    var text := "\"" + Twice(s) + "\"";
    EncodedConcat("\"", Twice(s));
    EncodedConcat("\"" + Twice(s), "\"");
    assert Encoded("\"") == [QUOTE];
    assert Encoded(text) == Enclosed(Encoded(s));
    var data := Encoded(text) + [0];
    assert data[0..|text|] == Encoded(text);
    QuotedRoundTrip(data, 0, |text|, Encoded(s));
  }
}
