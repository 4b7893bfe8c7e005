/**
 Quoted strings: a text between double quotes in which every double quote is doubled.
 */
module Quoted {
  import opened Scanning

  datatype QState = Start | Quote | Inside | Out

  // Where the scan from state st at position i stops, and in which state.
  function QScan(data: seq<byte>, i: nat, end: nat, st: QState): (r: (QState, nat))
    requires i <= end <= |data| && !st.Out?
    ensures i <= r.1 <= end
    decreases end - i
  {
    if i == end then (st, i)
    else
      match st
      case Start => if data[i] == QUOTE then QScan(data, i + 1, end, Inside) else (st, i)
      case Inside => QScan(data, i + 1, end, if data[i] == QUOTE then Quote else Inside)
      case Quote => if data[i] == QUOTE then QScan(data, i + 1, end, Inside) else (Out, i)
  }

  // Undoubles the quotes in data[i..stop]; a quote that is not doubled is left out.
  function UnescapeAt(data: seq<byte>, i: nat, stop: nat): seq<byte>
    requires stop < |data|
    decreases stop - i
  {
    if i >= stop then []
    else if data[i] != QUOTE then [data[i]] + UnescapeAt(data, i + 1, stop)
    else if data[i + 1] == QUOTE then [QUOTE] + UnescapeAt(data, i + 2, stop)
    else UnescapeAt(data, i + 1, stop)
  }

  // The text of the quoted string that begins at start, and the position behind it; a field that does not begin
  // with a quote, or whose closing quote is missing, has the empty text.
  function QStr(data: seq<byte>, start: nat, end: nat): (r: (seq<byte>, nat))
    requires start <= end < |data|
    ensures start <= r.1 <= end
  {
    var (st, e) := QScan(data, start, end, Start);
    if (st.Out? || st.Quote?) && e - start > 2 then (UnescapeAt(data, start + 1, e - 1), e) else ([], e)
  }

  function Accepted(data: seq<byte>, start: nat, end: nat): bool
    requires start <= end < |data|
  {
    var st := QScan(data, start, end, Start).0;
    st.Out? || st.Quote?
  }

  // One step of the undoubling.
  lemma UnescapeHead(data: seq<byte>, i: nat, stop: nat)
    requires stop < |data|
    ensures i >= stop ==> UnescapeAt(data, i, stop) == []
    ensures i < stop && data[i] != QUOTE ==>
              UnescapeAt(data, i, stop) == [data[i]] + UnescapeAt(data, i + 1, stop)
    ensures i < stop && data[i] == QUOTE && data[i + 1] == QUOTE ==>
              UnescapeAt(data, i, stop) == [QUOTE] + UnescapeAt(data, i + 2, stop)
    ensures i < stop && data[i] == QUOTE && data[i + 1] != QUOTE ==>
              UnescapeAt(data, i, stop) == UnescapeAt(data, i + 1, stop)
  {
  }

  lemma PushByte(done: seq<byte>, ch: byte, rest: seq<byte>)
    ensures done + ([ch] + rest) == (done + [ch]) + rest
  {
  }

  method Unescape(data: seq<byte>, start: nat, sz: nat) returns (text: seq<byte>)
    requires start + sz < |data|
    ensures text == UnescapeAt(data, start, start + sz)
  {
    hide UnescapeAt;
    var dst := new byte[sz + 1];
    var i, j := 0, 0;
    ghost var goal := UnescapeAt(data, start, start + sz);
    ghost var done: seq<byte> := [];
    while i < sz
      invariant 0 <= j <= i <= sz + 1 && j <= sz
      invariant dst[..j] == done
      invariant goal == done + UnescapeAt(data, start + i, start + sz)
    {
      UnescapeHead(data, start + i, start + sz);
      if data[start + i] == QUOTE {
        if data[start + i + 1] == QUOTE {
          i := i + 1;
          dst[j] := data[start + i];
          j := j + 1;
          PushByte(done, QUOTE, UnescapeAt(data, start + i + 1, start + sz));
          done := done + [QUOTE];
        }
      } else {
        dst[j] := data[start + i];
        j := j + 1;
        PushByte(done, data[start + i], UnescapeAt(data, start + i + 1, start + sz));
        done := done + [data[start + i]];
      }
      i := i + 1;
    }
    UnescapeHead(data, start + i, start + sz);
    dst[j] := NUL;
    text := dst[..j];
  }

  method ParseQStr(data: seq<byte>, start: nat, end: nat) returns (text: seq<byte>, i: nat)
    requires start <= end < |data|
    ensures (text, i) == QStr(data, start, end)
  {
    var state := Start;
    i := start;
    while i < end
      invariant start <= i <= end && !state.Out?
      invariant QScan(data, i, end, state) == QScan(data, start, end, Start)
      decreases end - i
    {
      var ch := data[i];
      match state {
        case Start =>
          if ch == QUOTE {
            state := Inside;
          } else {
            break;
          }
        case Inside =>
          if ch == QUOTE {
            state := Quote;
          }
        case Quote =>
          if ch == QUOTE {
            state := Inside;
          } else {
            state := Out;
            break;
          }
      }
      i := i + 1;
    }
    var sz := if state.Out? || state.Quote? then i - start else 0;
    if sz > 2 {
      text := Unescape(data, start + 1, i - start - 2);
    } else {
      text := [];
    }
  }

  // ---------- only the bytes of the part matter ----------

  // b holds at j the same n bytes as a at i.
  predicate Same(a: seq<byte>, i: nat, b: seq<byte>, j: nat, n: nat) {
    i + n <= |a| && j + n <= |b| && a[i..i + n] == b[j..j + n]
  }

  lemma SameTail(a: seq<byte>, i: nat, b: seq<byte>, j: nat, n: nat, m: nat)
    requires Same(a, i, b, j, n) && m <= n
    ensures Same(a, i + m, b, j + m, n - m)
  {
    assert a[i + m..i + n] == a[i..i + n][m..];
    assert b[j + m..j + n] == b[j..j + n][m..];
  }

  lemma {:induction false} QScanShift(a: seq<byte>, i: nat, b: seq<byte>, j: nat, n: nat, st: QState)
    requires Same(a, i, b, j, n) && !st.Out?
    ensures QScan(a, i, i + n, st).0 == QScan(b, j, j + n, st).0
    ensures QScan(a, i, i + n, st).1 - i == QScan(b, j, j + n, st).1 - j
    decreases n
  {
    if n > 0 {
      SameTail(a, i, b, j, n, 1);
      SameAt(a, i, b, j, n, 0);
      if st.Inside? || a[i] == QUOTE {
        QScanShift(a, i + 1, b, j + 1, n - 1, if st.Inside? && a[i] == QUOTE then Quote else Inside);
      }
    }
  }

  lemma {:induction false} UnescapeShift(a: seq<byte>, i: nat, b: seq<byte>, j: nat, n: nat)
    requires Same(a, i, b, j, n + 1)
    ensures UnescapeAt(a, i, i + n) == UnescapeAt(b, j, j + n)
    decreases n
  {
    hide UnescapeAt, Same;
    SameAt(a, i, b, j, n + 1, 0);
    UnescapeHead(a, i, i + n);
    UnescapeHead(b, j, j + n);
    if n > 0 {
      SameAt(a, i, b, j, n + 1, 1);
      SameTail(a, i, b, j, n + 1, 1);
      UnescapeShift(a, i + 1, b, j + 1, n - 1);
      if n > 1 {
        SameTail(a, i, b, j, n + 1, 2);
        UnescapeShift(a, i + 2, b, j + 2, n - 2);
      } else {
        UnescapeHead(a, i + 2, i + n);
        UnescapeHead(b, j + 2, j + n);
      }
    }
  }

  lemma SameAt(a: seq<byte>, i: nat, b: seq<byte>, j: nat, n: nat, k: nat)
    requires Same(a, i, b, j, n) && k < n
    ensures i + n <= |a| && j + n <= |b| && a[i + k] == b[j + k]
  {
    assert a[i..i + n][k] == a[i + k];
  }

  // The parse of a quoted string looks at the part of the data before end only.
  lemma QStrShift(a: seq<byte>, i: nat, b: seq<byte>, j: nat, n: nat)
    requires Same(a, i, b, j, n) && i + n < |a| && j + n < |b|
    ensures QStr(a, i, i + n).0 == QStr(b, j, j + n).0 && QStr(a, i, i + n).1 - i == QStr(b, j, j + n).1 - j
  {
    hide QScan, UnescapeAt, Same;
    QScanShift(a, i, b, j, n, Start);
    var m := QScan(a, i, i + n, Start).1 - i;
    if m > 2 {
      SameTail(a, i, b, j, n, 1);
      SamePart(a, i + 1, b, j + 1, n - 1, m - 1);
      UnescapeShift(a, i + 1, b, j + 1, m - 2);
    }
  }

  lemma SamePart(a: seq<byte>, i: nat, b: seq<byte>, j: nat, n: nat, m: nat)
    requires Same(a, i, b, j, n) && m <= n
    ensures Same(a, i, b, j, m)
  {
    assert a[i..i + m] == a[i..i + n][..m];
    assert b[j..j + m] == b[j..j + n][..m];
  }

  // ---------- round trip ----------

  function Doubled(s: seq<byte>): seq<byte> {
    if s == [] then []
    else if s[0] == QUOTE then [QUOTE, QUOTE] + Doubled(s[1..])
    else [s[0]] + Doubled(s[1..])
  }

  function Enclosed(s: seq<byte>): seq<byte> {
    [QUOTE] + Doubled(s) + [QUOTE]
  }

  // data holds the piece at position i.
  predicate Holds(data: seq<byte>, i: nat, piece: seq<byte>) {
    i + |piece| <= |data| && data[i..i + |piece|] == piece
  }

  lemma HoldsSplit(data: seq<byte>, i: nat, a: seq<byte>, b: seq<byte>)
    requires Holds(data, i, a + b)
    ensures Holds(data, i, a) && Holds(data, i + |a|, b)
  {
    assert data[i..i + |a + b|][..|a|] == data[i..i + |a|];
    assert data[i..i + |a + b|][|a|..] == data[i + |a|..i + |a| + |b|];
    assert (a + b)[..|a|] == a && (a + b)[|a|..] == b;
  }

  lemma HoldsAt(data: seq<byte>, i: nat, piece: seq<byte>, k: nat)
    requires Holds(data, i, piece) && k < |piece|
    ensures data[i + k] == piece[k]
  {
    assert data[i..i + |piece|][k] == data[i + k];
  }

  // One pair of quotes, or one other byte, at the front of a doubled text.
  lemma DoubledHead(data: seq<byte>, i: nat, s: seq<byte>)
    requires s != [] && Holds(data, i, Doubled(s) + [QUOTE])
    ensures var n := if s[0] == QUOTE then 2 else 1;
            && |Doubled(s)| == n + |Doubled(s[1..])| && Holds(data, i + n, Doubled(s[1..]) + [QUOTE])
            && data[i] == s[0] && (s[0] == QUOTE ==> data[i + 1] == QUOTE)
  {
    hide Holds;
    var head := if s[0] == QUOTE then [QUOTE, QUOTE] else [s[0]];
    assert Doubled(s) + [QUOTE] == head + (Doubled(s[1..]) + [QUOTE]);
    HoldsSplit(data, i, head, Doubled(s[1..]) + [QUOTE]);
    HoldsAt(data, i, head, 0);
    HoldsAt(data, i, head, |head| - 1);
  }

  // Inside the quotes, the scan runs through a doubled text and the undoubling gives the text back.
  lemma {:induction false} ScanDoubled(data: seq<byte>, i: nat, end: nat, s: seq<byte>)
    requires Holds(data, i, Doubled(s) + [QUOTE]) && i + |Doubled(s)| + 1 <= end < |data|
    ensures QScan(data, i, end, Inside) == QScan(data, i + |Doubled(s)| + 1, end, Quote)
    ensures UnescapeAt(data, i, i + |Doubled(s)|) == s
    decreases s
  {
    hide Holds, UnescapeAt;
    UnescapeHead(data, i, i + |Doubled(s)|);
    if s == [] {
      HoldsAt(data, i, Doubled(s) + [QUOTE], 0);
    } else {
      DoubledHead(data, i, s);
      ScanDoubled(data, i + if s[0] == QUOTE then 2 else 1, end, s[1..]);
      assert s == [s[0]] + s[1..];
    }
  }

  // Any text, enclosed in quotes and followed by anything but a quote, is read back, and the parse ends one past
  // the closing quote.
  lemma QuotedRoundTrip(data: seq<byte>, start: nat, end: nat, s: seq<byte>)
    requires Holds(data, start, Enclosed(s)) && start + |Enclosed(s)| <= end < |data|
    requires start + |Enclosed(s)| < end ==> data[start + |Enclosed(s)|] != QUOTE
    ensures QStr(data, start, end) == (s, start + |Enclosed(s)|) && Accepted(data, start, end)
  {
    hide Holds, QScan, UnescapeAt, Doubled;
    assert Enclosed(s) == [QUOTE] + (Doubled(s) + [QUOTE]);
    HoldsSplit(data, start, [QUOTE], Doubled(s) + [QUOTE]);
    HoldsAt(data, start, [QUOTE], 0);
    StartInside(data, start, end);
    ScanDoubled(data, start + 1, end, s);
    QuoteEnds(data, start + |Enclosed(s)|, end);
    UnescapeHead(data, start + 1, start + 1);
  }

  lemma QuoteEnds(data: seq<byte>, i: nat, end: nat)
    requires i <= end <= |data| && (i < end ==> data[i] != QUOTE)
    ensures QScan(data, i, end, Quote) == (if i < end then Out else Quote, i)
  {
  }

  // The bytes data[i..e] are a doubled text and a closing quote.
  predicate Closes(data: seq<byte>, i: nat, e: nat)
    requires e <= |data| && 0 < e
  {
    i < e && data[i..e] == Doubled(UnescapeAt(data, i, e - 1)) + [QUOTE]
  }

  lemma ClosesPlain(data: seq<byte>, i: nat, e: nat)
    requires i + 1 < e < |data| && data[i] != QUOTE && Closes(data, i + 1, e)
    ensures Closes(data, i, e)
  {
    hide UnescapeAt, Doubled;
    UnescapeHead(data, i, e - 1);
    DoubledCons(data[i], UnescapeAt(data, i + 1, e - 1));
    assert data[i..e] == [data[i]] + data[i + 1..e];
  }

  lemma ClosesDoubled(data: seq<byte>, i: nat, e: nat)
    requires i + 2 < e < |data| && data[i] == QUOTE && data[i + 1] == QUOTE && Closes(data, i + 2, e)
    ensures Closes(data, i, e)
  {
    hide UnescapeAt, Doubled;
    UnescapeHead(data, i, e - 1);
    DoubledCons(QUOTE, UnescapeAt(data, i + 2, e - 1));
    assert data[i..e] == [QUOTE, QUOTE] + data[i + 2..e];
  }

  lemma DoubledCons(ch: byte, s: seq<byte>)
    ensures Doubled([ch] + s) == (if ch == QUOTE then [QUOTE, QUOTE] else [ch]) + Doubled(s)
  {
    assert ([ch] + s)[1..] == s;
  }

  // What the scan accepts from inside the quotes is a doubled text and a closing quote.
  lemma {:induction false} ScanIsDoubled(data: seq<byte>, i: nat, end: nat)
    requires i <= end < |data|
    ensures var (st, e) := QScan(data, i, end, Inside);
            st.Out? || st.Quote? ==> 0 < e && Closes(data, i, e)
    decreases end - i
  {
    hide Closes, Doubled, UnescapeAt, QScan;
      var (st, e) := QScan(data, i, end, Inside);
    ScanInside(data, i, end);
    if i < end && (st.Out? || st.Quote?) {
      if data[i] != QUOTE {
        ScanIsDoubled(data, i + 1, end);
        ClosesAfter(data, i + 1, e);
        ClosesPlain(data, i, e);
      } else if i + 1 < end && data[i + 1] == QUOTE {
        ScanIsDoubled(data, i + 2, end);
        ClosesAfter(data, i + 2, e);
        ClosesDoubled(data, i, e);
      } else {
        ClosesAtOnce(data, i);
      }
    }
  }

  lemma StartInside(data: seq<byte>, start: nat, end: nat)
    requires start < end <= |data| && data[start] == QUOTE
    ensures QScan(data, start, end, Start) == QScan(data, start + 1, end, Inside)
  {
  }

  // Inside the quotes the scan takes one byte, or two quotes, or ends at a single one.
  lemma ScanInside(data: seq<byte>, i: nat, end: nat)
    requires i <= end <= |data|
    ensures i == end ==> QScan(data, i, end, Inside) == (Inside, i)
    ensures i < end && data[i] != QUOTE ==> QScan(data, i, end, Inside) == QScan(data, i + 1, end, Inside)
    ensures i + 1 < end && data[i] == QUOTE == data[i + 1] ==>
              QScan(data, i, end, Inside) == QScan(data, i + 2, end, Inside)
    ensures i < end && data[i] == QUOTE && (i + 1 < end ==> data[i + 1] != QUOTE) ==>
              QScan(data, i, end, Inside) == (if i + 1 < end then Out else Quote, i + 1)
  {
    if i < end && data[i] == QUOTE {
      assert QScan(data, i, end, Inside) == QScan(data, i + 1, end, Quote);
      if i + 1 < end && data[i + 1] == QUOTE {
        assert QScan(data, i + 1, end, Quote) == QScan(data, i + 2, end, Inside);
      }
    }
  }

  lemma ClosesAfter(data: seq<byte>, i: nat, e: nat)
    requires 0 < e <= |data| && Closes(data, i, e)
    ensures i < e
  {
  }

  lemma ClosesAtOnce(data: seq<byte>, i: nat)
    requires i < |data| && data[i] == QUOTE
    ensures Closes(data, i, i + 1)
  {
    assert data[i..i + 1] == [QUOTE];
  }

  // The other way: the bytes of an accepted string are exactly its text enclosed in quotes, so no quote is lost.
  lemma AcceptedIsEnclosed(data: seq<byte>, start: nat, end: nat)
    requires start <= end < |data| && Accepted(data, start, end)
    ensures var (s, e) := QStr(data, start, end); data[start..e] == Enclosed(s)
  {
    ScanIsDoubled(data, start + 1, end);
    var (s, e) := QStr(data, start, end);
    assert data[start..e] == [QUOTE] + data[start + 1..e];
    assert UnescapeAt(data, start + 1, start + 1) == [];
  }

  // ---------- what is not accepted ----------

  // A field that does not begin with a quote is empty and stops where it began.
  lemma UnopenedIsEmpty(data: seq<byte>, start: nat, end: nat)
    requires start <= end < |data| && (start == end || data[start] != QUOTE)
    ensures QStr(data, start, end) == ([], start) && !Accepted(data, start, end)
  {
  }

  lemma {:induction false} ScanUnclosed(data: seq<byte>, i: nat, end: nat, s: seq<byte>)
    requires Holds(data, i, Doubled(s)) && i + |Doubled(s)| == end <= |data|
    ensures QScan(data, i, end, Inside) == (Inside, end)
    decreases s
  {
    hide Holds;
    ScanInside(data, i, end);
    if s != [] {
      var head := if s[0] == QUOTE then [QUOTE, QUOTE] else [s[0]];
      HoldsSplit(data, i, head, Doubled(s[1..]));
      HoldsAt(data, i, head, 0);
      HoldsAt(data, i, head, |head| - 1);
      ScanUnclosed(data, i + |head|, end, s[1..]);
    }
  }

  // A field whose closing quote is missing is empty and runs to the end.
  lemma UnclosedIsEmpty(data: seq<byte>, start: nat, end: nat, s: seq<byte>)
    requires start < end < |data| && data[start] == QUOTE
    requires Holds(data, start + 1, Doubled(s)) && start + 1 + |Doubled(s)| == end
    ensures QStr(data, start, end) == ([], end) && !Accepted(data, start, end)
  {
    hide Holds;
    StartInside(data, start, end);
    ScanUnclosed(data, start + 1, end, s);
  }

  // From inside the quotes, the scan comes to the end only through a doubled text.
  lemma {:induction false} OpenIsDoubled(data: seq<byte>, i: nat, end: nat) returns (s: seq<byte>)
    requires i <= end <= |data| && QScan(data, i, end, Inside).0.Inside?
    ensures data[i..end] == Doubled(s)
    decreases end - i
  {
    hide QScan, Doubled;
    ScanInside(data, i, end);
    if i == end {
      s := [];
      DoubledNothing();
    } else if data[i] != QUOTE {
      var t := OpenIsDoubled(data, i + 1, end);
      s := [data[i]] + t;
      DoubledCons(data[i], t);
      assert data[i..end] == [data[i]] + data[i + 1..end];
    } else {
      var t := OpenIsDoubled(data, i + 2, end);
      s := [QUOTE] + t;
      DoubledCons(QUOTE, t);
      assert data[i..end] == [QUOTE, QUOTE] + data[i + 2..end];
    }
  }

  lemma DoubledNothing()
    ensures Doubled([]) == []
  {
  }

  // There is nothing else: what is opened and not accepted has no closing quote.
  lemma RefusedIsUnclosed(data: seq<byte>, start: nat, end: nat)
    requires start <= end < |data| && !Accepted(data, start, end)
    ensures start == end || data[start] != QUOTE || exists s :: data[start..end] == [QUOTE] + Doubled(s)
  {
    if start < end && data[start] == QUOTE {
      StartInside(data, start, end);
      NeverStart(data, start + 1, end, Inside);
      var s := OpenIsDoubled(data, start + 1, end);
      assert data[start..end] == [QUOTE] + data[start + 1..end];
    }
  }

  lemma {:induction false} NeverStart(data: seq<byte>, i: nat, end: nat, st: QState)
    requires i <= end <= |data| && (st.Inside? || st.Quote?)
    ensures !QScan(data, i, end, st).0.Start?
    decreases end - i
  {
    if i < end && (st.Inside? || data[i] == QUOTE) {
      NeverStart(data, i + 1, end, if st.Inside? && data[i] == QUOTE then Quote else Inside);
    }
  }
}
