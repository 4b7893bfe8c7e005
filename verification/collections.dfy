/**
 Arrays and dictionaries inside one field.
 */
module Collections {
  import opened Scanning
  import opened Integers
  import opened Quoted

  datatype Value =
    | Text(text: seq<byte>)
    | Integer(number: int)
    | Items(items: seq<Value>)
    | Entries(entries: map<seq<byte>, Value>)

  // The kinds of element.
  datatype Elem = StrElem | IntElem | OptQStrElem

  // The first delimiter at or after i; NUL does not stop it.
  function StrStop(data: seq<byte>, d: byte, i: nat, end: nat): (r: nat)
    requires i <= end <= |data|
    ensures i <= r <= end
    ensures d !in data[i..r] && (r < end ==> data[r] == d)
    decreases end - i
  {
    if i < end && data[i] != d then
      var r := StrStop(data, d, i + 1, end);
      assert data[i..r] == [data[i]] + data[i + 1..r];
      r
    else i
  }

  method ParseStr(data: seq<byte>, d: byte, start: nat, end: nat) returns (text: seq<byte>, i: nat)
    requires start <= end <= |data|
    ensures i == StrStop(data, d, start, end) && text == data[start..i]
  {
    i := start;
    while i < end && data[i] != d
      invariant start <= i <= end
      invariant StrStop(data, d, i, end) == StrStop(data, d, start, end)
    {
      i := i + 1;
    }
    var dst := new byte[i - start + 1];
    forall k | 0 <= k < i - start {
      dst[k] := data[start + k];
    }
    dst[i - start] := NUL;
    text := dst[..i - start];
  }

  // An element that begins at i, in a part of the record that ends at e, and where its parse stops. Only integers look
  // past e, at most up to the end of the record.
  function ElemAt(data: seq<byte>, el: Elem, d: byte, i: nat, e: nat, end: nat): (r: (Value, nat))
    requires i <= e <= end < |data|
    ensures i <= r.1 <= end
  {
    match el
    case IntElem => (Integer(TextValue(data[i..end], d)), IntStop(data, i, end, d))
    case StrElem => var r := StrStop(data, d, i, e); (Text(data[i..r]), r)
    case OptQStrElem =>
      if data[i] == QUOTE then
        var r := QStr(data, i, e);
        (Text(r.0), r.1)
      else
        var r := StrStop(data, d, i, e);
        (Text(data[i..r]), r)
  }

  // The byte behind the record ends every integer.
  predicate Ended(data: seq<byte>, end: nat) {
    end < |data| && (data[end] == NUL || data[end] == NEWLINE)
  }

  method ParseElem(data: seq<byte>, el: Elem, d: byte, i: nat, e: nat, ghost end: nat) returns (v: Value, stop: nat)
    requires i <= e <= end && Ended(data, end)
    ensures (v, stop) == ElemAt(data, el, d, i, e, end)
  {
    match el {
      case IntElem =>
        var n, s, ok, leaves := ParseInt64(data, i, d, end);
        v, stop := Integer(n), s;
      case StrElem =>
        var t, s := ParseStr(data, d, i, e);
        v, stop := Text(t), s;
      case OptQStrElem =>
        if data[i] == QUOTE {
          var t, s := ParseQStr(data, i, e);
          v, stop := Text(t), s;
        } else {
          var t, s := ParseStr(data, d, i, e);
          v, stop := Text(t), s;
        }
    }
  }

  // The part data[i..e] of a field holds neither the field delimiter nor NUL.
  ghost predicate Plain(data: seq<byte>, d: byte, i: nat, e: nat) {
    e <= |data| && forall k :: i <= k < e ==> data[k] != d && data[k] != NUL
  }

  // ---------- arrays ----------

  function ArrayItems(data: seq<byte>, el: Elem, fd: byte, i: nat, e: nat, end: nat): (r: seq<Value>)
    requires i <= e <= end < |data|
    decreases e - i
  {
    if i < e then
      var f := ReachDelim(data, fd, i, e);
      var next := ReachValue(data, fd, f, e);
      [ElemAt(data, el, fd, i, f, end).0] + if next > i then ArrayItems(data, el, fd, next, e, end) else []
    else []
  }

  // One element; there is progress, because no NUL stops the scan.
  lemma ArrayStep(data: seq<byte>, d: byte, el: Elem, fd: byte, i: nat, e: nat, end: nat)
    requires i < e <= end < |data| && Plain(data, d, i, e)
    ensures var f := ReachDelim(data, fd, i, e);
            var next := ReachValue(data, fd, f, e);
            && i < next && (f < e ==> data[f] == fd && next == f + 1) && (f == e ==> next == e)
            && ArrayItems(data, el, fd, i, e, end)
               == [ElemAt(data, el, fd, i, f, end).0] + ArrayItems(data, el, fd, next, e, end)
  {
    hide ElemAt;
  }

  method ParseArray(data: seq<byte>, d: byte, el: Elem, fd: byte, start: nat, e: nat, ghost end: nat)
    returns (items: seq<Value>)
    requires start <= e <= end && Ended(data, end) && Plain(data, d, start, e)
    ensures items == ArrayItems(data, el, fd, start, e, end)
  {
    hide ElemAt, ArrayItems;
    var i := start;
    items := [];
    while i < e && data[i] != d
      invariant start <= i <= e
      invariant items + ArrayItems(data, el, fd, i, e, end) == ArrayItems(data, el, fd, start, e, end)
      decreases e - i
    {
      ArrayStep(data, d, el, fd, i, e, end);
      var f := ReachDelimPos(data, fd, i, e);
      var v, stop := ParseElem(data, el, fd, i, f, end);
      items := items + [v];
      i := ReachValuePos(data, fd, false, f, e);
    }
    ArrayEnd(data, el, fd, i, end);
  }

  lemma ArrayEnd(data: seq<byte>, el: Elem, fd: byte, i: nat, end: nat)
    requires i <= end < |data|
    ensures ArrayItems(data, el, fd, i, i, end) == []
  {
  }

  // What a text means as an element.
  function ElemMeaning(el: Elem, text: seq<byte>, d: byte): Value {
    if el.IntElem? then Integer(TextValue(text, d)) else Text(text)
  }

  // The pieces, without a last empty one.
  function Trimmed(pieces: seq<seq<byte>>): seq<seq<byte>>
    requires pieces != []
  {
    if pieces[|pieces| - 1] == [] then pieces[..|pieces| - 1] else pieces
  }

  lemma TrimmedTail(piece: seq<byte>, rest: seq<seq<byte>>)
    requires rest != []
    ensures Trimmed([piece] + rest) == [piece] + Trimmed(rest)
  {
    var all := [piece] + rest;
    assert all[..|all| - 1] == [piece] + rest[..|rest| - 1];
  }

  // What texts mean as elements.
  function Elements(texts: seq<seq<byte>>, el: Elem, d: byte): seq<Value> {
    if texts == [] then [] else [ElemMeaning(el, texts[0], d)] + Elements(texts[1..], el, d)
  }

  // Integers in an array are told apart from the delimiters around them: d ends the field and fd the element.
  predicate ArraySeparable(el: Elem, fd: byte, d: byte) {
    el.IntElem? ==> fd == d || (fd != MINUS && !IsDigit(d))
  }

  // An array field is split at its own delimiter; an empty piece at the end is no element.
  lemma {:induction false} ArrayIsSplit(data: seq<byte>, d: byte, el: Elem, fd: byte, i: nat, e: nat, end: nat)
    requires i <= e <= end && Ended(data, end) && Plain(data, d, i, e) && !el.OptQStrElem?
    requires (data[e] == d || e == end) && ArraySeparable(el, fd, d)
    ensures ArrayItems(data, el, fd, i, e, end) == Elements(Trimmed(Split(data[i..e], fd)), el, fd)
    decreases e - i
  {
    hide ElemAt, ElemMeaning, Split, Trimmed, ArrayItems;
    if i == e {
      EmptyArray(data, el, fd, i, end);
    } else {
      var f := ReachDelim(data, fd, i, e);
      SplitRest(data, fd, i, f, e);
      ElemIsPiece(data, d, el, fd, i, f, e, end);
      ArrayStep(data, d, el, fd, i, e, end);
      if f < e {
        ArrayIsSplit(data, d, el, fd, f + 1, e, end);
        TrimmedTail(data[i..f], Split(data[f + 1..e], fd));
        ElementsTail(data[i..f], Trimmed(Split(data[f + 1..e], fd)), el, fd);
      } else {
        OnePiece(data[i..e]);
        ElementsTail(data[i..e], [], el, fd);
        ArrayEnd(data, el, fd, e, end);
      }
    }
  }

  lemma ElementsTail(text: seq<byte>, rest: seq<seq<byte>>, el: Elem, d: byte)
    ensures Elements([text] + rest, el, d) == [ElemMeaning(el, text, d)] + Elements(rest, el, d)
  {
    assert ([text] + rest)[1..] == rest;
  }

  lemma EmptyArray(data: seq<byte>, el: Elem, fd: byte, i: nat, end: nat)
    requires i <= end < |data|
    ensures ArrayItems(data, el, fd, i, i, end) == [] && Trimmed(Split(data[i..i], fd)) == []
  {
    assert data[i..i] == [];
  }

  lemma OnePiece(piece: seq<byte>)
    requires piece != []
    ensures Trimmed([piece] + []) == [piece]
  {
  }

  lemma ElemIsPiece(data: seq<byte>, d: byte, el: Elem, fd: byte, i: nat, f: nat, e: nat, end: nat)
    requires i < e <= end && Ended(data, end) && Plain(data, d, i, e) && !el.OptQStrElem?
    requires f == ReachDelim(data, fd, i, e)
    requires (data[e] == d || e == end) && ArraySeparable(el, fd, d)
    ensures ElemAt(data, el, fd, i, f, end).0 == ElemMeaning(el, data[i..f], fd)
  {
    if el.IntElem? {
      assert f < end ==> data[f] == fd || !IsDigit(data[f]);
      assert f == i ==> data[i] == fd != MINUS;
      IntegerIsPiece(data, fd, i, f, end);
    } else {
      StopsAt(data, fd, i, f);
    }
  }

  lemma StopsAt(data: seq<byte>, d: byte, i: nat, f: nat)
    requires i <= f <= |data|
    ensures d !in data[i..f] ==> StrStop(data, d, i, f) == f
  {
    var r := StrStop(data, d, i, f);
    if r < f {
      assert data[i..f][r - i] == d;
    }
  }

  // An integer that is followed by its delimiter or no digit, and is not just missing before a minus sign, has the
  // value of its text and ends in it.
  lemma IntegerIsPiece(data: seq<byte>, d: byte, i: nat, f: nat, end: nat)
    requires i <= f <= end <= |data| && forall k :: i <= k < f ==> data[k] != d
    requires f < end ==> data[f] == d || !IsDigit(data[f])
    requires i == f < end ==> data[i] != MINUS
    ensures TextValue(data[i..end], d) == TextValue(data[i..f], d) && IntStop(data, i, end, d) <= f
  {
    hide TextValue, Digits;
    var s := data[i..end];
    assert s[..f - i] == data[i..f];
    assert f < end ==> s[f - i] == data[f];
    assert i < end ==> s[0] == data[i];
    IntegerPrefix(s, f - i, d);
    DigitsEnd(data, d, if i < f && data[i] == MINUS then i + 1 else i, f, end);
  }

  lemma DigitsEnd(data: seq<byte>, d: byte, i: nat, f: nat, end: nat)
    requires i <= f <= end <= |data| && (f < end ==> data[f] == d || !IsDigit(data[f]))
    ensures |Digits(data[i..end], d)| <= f - i
  {
    var s := data[i..end];
    assert f < end ==> s[f - i] == data[f];
    DigitsPrefix(s, f - i, d);
  }

  // Nothing behind the delimiter matters.
  lemma IntegerPrefix(s: seq<byte>, n: nat, d: byte)
    requires n <= |s| && d !in s[..n]
    requires n < |s| ==> s[n] == d || !IsDigit(s[n])
    requires n == 0 && s != [] ==> s[0] != MINUS
    ensures TextValue(s, d) == TextValue(s[..n], d)
  {
    if n > 0 && s[0] == MINUS {
      assert s[..n][1..] == s[1..][..n - 1];
      DigitsPrefix(s[1..], n - 1, d);
    } else {
      DigitsPrefix(s, n, d);
    }
  }

  // ---------- dictionaries ----------

  // Where the entry behind an element that stops at stop begins.
  function EntryNext(data: seq<byte>, fd: byte, stop: nat, e: nat): (r: nat)
    requires e <= |data|
    ensures stop <= r
  {
    if stop < e then ReachValue(data, fd, ReachDelim(data, fd, stop, e), e) else stop
  }

  // The bindings added by data[i..e]: keys end at pd and entries at fd. A key that is bound already keeps its value.
  function DictEntries(data: seq<byte>, el: Elem, pd: byte, fd: byte, i: nat, e: nat, end: nat,
                       acc: map<seq<byte>, Value>): (r: map<seq<byte>, Value>)
    requires e <= end < |data|
    ensures forall key :: key in acc ==> key in r && r[key] == acc[key]
    decreases e - i
  {
    if i < e then
      var kv := ReachDelim(data, pd, i, e);
      var v := ReachValue(data, pd, kv, e);
      var key := data[i..kv];
      if v == i then acc
      else if key in acc then DictEntries(data, el, pd, fd, EntryNext(data, fd, v, e), e, end, acc)
      else
        var (val, stop) := ElemAt(data, el, fd, v, e, end);
        DictEntries(data, el, pd, fd, EntryNext(data, fd, stop, e), e, end, acc[key := val])
    else acc
  }

  method ParseDict(data: seq<byte>, d: byte, el: Elem, pd: byte, fd: byte, start: nat, e: nat, ghost end: nat)
    returns (dict: map<seq<byte>, Value>)
    requires start <= e <= end && Ended(data, end) && Plain(data, d, start, e)
    ensures dict == DictEntries(data, el, pd, fd, start, e, end, map[])
  {
    hide ElemAt;
    var i := start;
    dict := map[];
    while i < e && data[i] != d
      invariant start <= i
      invariant DictEntries(data, el, pd, fd, i, e, end, dict) == DictEntries(data, el, pd, fd, start, e, end, map[])
      decreases e - i
    {
      var kv := ReachDelimPos(data, pd, i, e);
      var key, keyEnd := ParseStr(data, pd, i, kv);
      assert keyEnd == kv;
      var v := ReachValuePos(data, pd, false, kv, e);
      var f := v;
      if key !in dict {
        var val, stop := ParseElem(data, el, fd, v, e, end);
        dict := dict[key := val];
        f := stop;
      }
      if f < e {
        f := ReachDelimPos(data, fd, f, e);
        f := ReachValuePos(data, fd, false, f, e);
      }
      i := f;
    }
  }

  // ---------- a dictionary as a text ----------

  // The text up to the first d.
  function Before(s: seq<byte>, d: byte): seq<byte> {
    s[..StrStop(s, d, 0, |s|)]
  }

  // The text behind the first d.
  function After(s: seq<byte>, d: byte): (r: seq<byte>)
    ensures |r| <= |s| && (s != [] ==> |r| < |s|)
  {
    var k := StrStop(s, d, 0, |s|);
    if k < |s| then s[k + 1..] else []
  }

  // The value at the front of a text, and the text behind it and its delimiter.
  function FirstValue(t: seq<byte>, el: Elem, fd: byte): (r: (Value, seq<byte>))
    ensures |r.1| <= |t|
  {
    if el.OptQStrElem? && t != [] && t[0] == QUOTE then
      var (text, k) := QStr(t + [NUL], 0, |t|);
      (Text(text), After(t[k..], fd))
    else (ElemMeaning(el, Before(t, fd), fd), After(t, fd))
  }

  // What a text means as a dictionary: a key that is bound already keeps its value.
  function DictMeaning(s: seq<byte>, el: Elem, pd: byte, fd: byte, acc: map<seq<byte>, Value>): map<seq<byte>, Value>
    decreases |s|
  {
    if s == [] then acc
    else
      var (key, t) := (Before(s, pd), After(s, pd));
      if key in acc then DictMeaning(After(t, fd), el, pd, fd, acc)
      else
        var (val, rest) := FirstValue(t, el, fd);
        DictMeaning(rest, el, pd, fd, acc[key := val])
  }

  // Integers in a dictionary are told apart from the delimiters around them; a value can be missing at the end.
  predicate DictSeparable(el: Elem, pd: byte, fd: byte, d: byte) {
    el.IntElem? ==> d != MINUS && (fd == d || !IsDigit(d)) && (fd != MINUS || pd == d || pd == NUL)
  }

  // The first delimiter in a part without NUL cuts the part.
  lemma PartCut(data: seq<byte>, d: byte, i: nat, e: nat)
    requires i <= e <= |data| && forall k :: i <= k < e ==> data[k] != NUL
    ensures var f := ReachDelim(data, d, i, e);
            && f == StrStop(data, d, i, e) && Before(data[i..e], d) == data[i..f]
            && After(data[i..e], d) == data[ReachValue(data, d, f, e)..e]
            && ReachDelim(data, d, f, e) == f
  {
    hide ReachDelim, StrStop, Before, After;
    var f := ReachDelim(data, d, i, e);
    StopIsAt(data, d, i, f, e);
    DelimiterBehind(data, d, i, f, e);
    PartStops(data, d, i, f, e);
    BeforePart(data, d, i, f, e);
    AfterPart(data, d, i, f, e);
  }

  // The first delimiter of a part, in the part itself.
  lemma PartStops(data: seq<byte>, d: byte, i: nat, f: nat, e: nat)
    requires i <= f <= e <= |data| && (f < e ==> data[f] == d) && forall k :: i <= k < f ==> data[k] != d
    ensures StrStop(data[i..e], d, 0, e - i) == f - i
  {
    hide StrStop;
    var s := data[i..e];
    forall k | 0 <= k < f - i ensures s[k] != d {
      assert s[k] == data[i + k];
    }
    StopIsAt(s, d, 0, f - i, |s|);
  }

  lemma BeforePart(data: seq<byte>, d: byte, i: nat, f: nat, e: nat)
    requires i <= f <= e <= |data| && StrStop(data[i..e], d, 0, e - i) == f - i
    ensures Before(data[i..e], d) == data[i..f]
  {
    hide StrStop;
    assert data[i..e][..f - i] == data[i..f];
  }

  lemma AfterPart(data: seq<byte>, d: byte, i: nat, f: nat, e: nat)
    requires i <= f <= e <= |data| && StrStop(data[i..e], d, 0, e - i) == f - i && (f < e ==> data[f] == d)
    ensures After(data[i..e], d) == data[ReachValue(data, d, f, e)..e]
  {
    hide StrStop, After;
    AfterIs(data[i..e], d, f - i);
    if f < e {
      assert data[i..e][f - i + 1..] == data[f + 1..e];
    } else {
      assert data[e..e] == [];
    }
  }

  lemma AfterIs(s: seq<byte>, d: byte, k: nat)
    requires StrStop(s, d, 0, |s|) == k
    ensures After(s, d) == if k < |s| then s[k + 1..] else []
  {
    hide StrStop;
  }

  lemma {:induction false} DelimiterIsAt(data: seq<byte>, d: byte, i: nat, r: nat, end: nat)
    requires i <= r <= end <= |data| && (r < end ==> data[r] == d)
    requires forall k :: i <= k < r ==> data[k] != d && data[k] != NUL
    ensures ReachDelim(data, d, i, end) == r && StrStop(data, d, i, end) == r
    decreases r - i
  {
    if i < r {
      DelimiterIsAt(data, d, i + 1, r, end);
    }
  }

  lemma {:induction false} StopIsAt(data: seq<byte>, d: byte, i: nat, r: nat, end: nat)
    requires i <= r <= end <= |data| && (r < end ==> data[r] == d)
    requires forall k :: i <= k < r ==> data[k] != d
    ensures StrStop(data, d, i, end) == r
    decreases r - i
  {
    if i < r {
      StopIsAt(data, d, i + 1, r, end);
    }
  }

  // What lies between two positions before the next delimiter does not matter for where it is.
  lemma {:induction false} DelimiterBehind(data: seq<byte>, d: byte, i: nat, k: nat, e: nat)
    requires i <= k <= e <= |data| && k <= ReachDelim(data, d, i, e)
    ensures ReachDelim(data, d, k, e) == ReachDelim(data, d, i, e)
    decreases k - i
  {
    if i < k {
      DelimiterBehind(data, d, i + 1, k, e);
    }
  }

  // A value and what is behind it.
  lemma ValueIsFirst(data: seq<byte>, el: Elem, fd: byte, v: nat, e: nat, end: nat)
    requires v <= e <= end < |data| && forall k :: v <= k < e ==> data[k] != NUL
    requires el.IntElem? ==> (v < e ==> fd != MINUS) && (v == e < end ==> data[e] != MINUS)
    requires el.IntElem? ==> e < end ==> data[e] == fd || !IsDigit(data[e])
    ensures var (val, stop) := ElemAt(data, el, fd, v, e, end);
            var first := FirstValue(data[v..e], el, fd);
            && val == first.0 && EntryNext(data, fd, stop, e) <= e
            && data[EntryNext(data, fd, stop, e)..e] == first.1
  {
    hide QStr, TextValue, IntStop, ReachDelim, StrStop;
    var f := ReachDelim(data, fd, v, e);
    PartCut(data, fd, v, e);
    if el.OptQStrElem? && data[v] == QUOTE {
      QuotedIsFirst(data, fd, v, e, end);
    } else if el.IntElem? {
      IntegerIsPiece(data, fd, v, f, end);
      var stop := IntStop(data, v, end, fd);
      DelimiterBehind(data, fd, v, stop, e);
    }
  }

  lemma QuotedIsFirst(data: seq<byte>, fd: byte, v: nat, e: nat, end: nat)
    requires v <= e <= end < |data| && data[v] == QUOTE && forall k :: v <= k < e ==> data[k] != NUL
    ensures var (val, stop) := ElemAt(data, OptQStrElem, fd, v, e, end);
            var first := FirstValue(data[v..e], OptQStrElem, fd);
            && val == first.0 && EntryNext(data, fd, stop, e) <= e
            && data[EntryNext(data, fd, stop, e)..e] == first.1
  {
    hide QStr, ReachDelim, StrStop, Before, After;
    if v < e {
      QuotedInPart(data, v, e);
      PartCut(data, fd, QStr(data, v, e).1, e);
    } else {
      NothingQuoted(data, fd, e);
    }
  }

  // A quoted string can be cut out of the data.
  lemma QuotedInPart(data: seq<byte>, v: nat, e: nat)
    requires v < e < |data|
    ensures var t := data[v..e];
            var q := QStr(t + [NUL], 0, |t|);
            && t != [] && t[0] == data[v] && q.0 == QStr(data, v, e).0 && q.1 <= |t|
            && t[q.1..] == data[QStr(data, v, e).1..e]
  {
    hide QStr;
    var t := data[v..e];
    assert (t + [NUL])[0..|t|] == t;
    QStrShift(data, v, t + [NUL], 0, |t|);
  }

  lemma NothingQuoted(data: seq<byte>, fd: byte, e: nat)
    requires e < |data|
    ensures QStr(data, e, e) == ([], e) && Before([], fd) == After([], fd) == []
  {
  }

  // One entry of a dictionary.
  lemma DictUnfold(data: seq<byte>, el: Elem, pd: byte, fd: byte, i: nat, e: nat, end: nat,
                   acc: map<seq<byte>, Value>)
    requires i < e <= end < |data| && forall k :: i <= k < e ==> data[k] != NUL
    ensures var kv := ReachDelim(data, pd, i, e);
            var v := ReachValue(data, pd, kv, e);
            var key := data[i..kv];
            var (val, stop) := ElemAt(data, el, fd, v, e, end);
            DictEntries(data, el, pd, fd, i, e, end, acc)
            == if key in acc then DictEntries(data, el, pd, fd, EntryNext(data, fd, v, e), e, end, acc)
            else DictEntries(data, el, pd, fd, EntryNext(data, fd, stop, e), e, end, acc[key := val])
  {
    hide ElemAt, EntryNext;
  }

  lemma DictUnfoldText(s: seq<byte>, el: Elem, pd: byte, fd: byte, acc: map<seq<byte>, Value>)
    requires s != []
    ensures var (key, t) := (Before(s, pd), After(s, pd));
            var first := FirstValue(t, el, fd);
            DictMeaning(s, el, pd, fd, acc)
            == if key in acc then DictMeaning(After(t, fd), el, pd, fd, acc)
            else DictMeaning(first.1, el, pd, fd, acc[key := first.0])
  {
    hide Before, FirstValue;
  }

  // A dictionary field means what its text means.
  lemma {:induction false} DictIsMeaning(data: seq<byte>, d: byte, el: Elem, pd: byte, fd: byte, i: nat, e: nat,
                                         end: nat, acc: map<seq<byte>, Value>)
    requires i <= e <= end && Ended(data, end) && Plain(data, d, i, e) && DictSeparable(el, pd, fd, d)
    requires data[e] == d || e == end
    ensures DictEntries(data, el, pd, fd, i, e, end, acc) == DictMeaning(data[i..e], el, pd, fd, acc)
    decreases e - i
  {
    hide ElemAt, FirstValue, Before, After, ReachDelim, EntryNext, DictEntries, DictMeaning;
    if i == e {
      NoEntries(data, el, pd, fd, i, end, acc);
    } else {
      DictUnfold(data, el, pd, fd, i, e, end, acc);
      DictUnfoldText(data[i..e], el, pd, fd, acc);
      PartCut(data, pd, i, e);
      var kv := ReachDelim(data, pd, i, e);
      var v := ReachValue(data, pd, kv, e);
      KeyAdvances(data, pd, i, e);
      var key := data[i..kv];
      if key in acc {
        PartCut(data, fd, v, e);
        NextInPart(data, fd, v, e);
        DictIsMeaning(data, d, el, pd, fd, EntryNext(data, fd, v, e), e, end, acc);
      } else {
        ValueIsFirst(data, el, fd, v, e, end);
        var (val, stop) := ElemAt(data, el, fd, v, e, end);
        DictIsMeaning(data, d, el, pd, fd, EntryNext(data, fd, stop, e), e, end, acc[key := val]);
      }
    }
  }

  lemma KeyAdvances(data: seq<byte>, pd: byte, i: nat, e: nat)
    requires i < e <= |data| && data[i] != NUL
    ensures var kv := ReachDelim(data, pd, i, e);
            i < ReachValue(data, pd, kv, e) <= e && (kv < e ==> data[kv] == pd || data[kv] == NUL)
  {
  }

  lemma NextInPart(data: seq<byte>, fd: byte, v: nat, e: nat)
    requires v <= e <= |data|
    ensures v <= EntryNext(data, fd, v, e) <= e
    ensures EntryNext(data, fd, v, e) == ReachValue(data, fd, ReachDelim(data, fd, v, e), e)
  {
  }

  lemma NoEntries(data: seq<byte>, el: Elem, pd: byte, fd: byte, i: nat, end: nat, acc: map<seq<byte>, Value>)
    requires i <= end < |data|
    ensures DictEntries(data, el, pd, fd, i, i, end, acc) == acc == DictMeaning(data[i..i], el, pd, fd, acc)
  {
  }

  lemma EmptyMeaning(el: Elem, pd: byte, fd: byte, acc: map<seq<byte>, Value>)
    ensures DictMeaning([], el, pd, fd, acc) == acc
  {
  }

  // A key that is bound keeps its value.
  lemma {:induction false} MeaningKeeps(s: seq<byte>, el: Elem, pd: byte, fd: byte, acc: map<seq<byte>, Value>,
                                        key: seq<byte>)
    requires key in acc
    ensures var dict := DictMeaning(s, el, pd, fd, acc); key in dict && dict[key] == acc[key]
    decreases |s|
  {
    hide Before, After, FirstValue;
    if s != [] {
      var t := After(s, pd);
      if Before(s, pd) in acc {
        MeaningKeeps(After(t, fd), el, pd, fd, acc, key);
      } else {
        var first := FirstValue(t, el, fd);
        MeaningKeeps(first.1, el, pd, fd, acc[Before(s, pd) := first.0], key);
      }
    }
  }
}
