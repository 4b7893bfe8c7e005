/**
 Writing arrays and dictionaries and reading them back.
 */
module CollectionWriting {
  import opened Scanning
  import opened Integers
  import opened Quoted
  import opened Collections

  // ---------- arrays ----------

  // Every item is followed by the delimiter.
  function WrittenItems(texts: seq<seq<byte>>, fd: byte): seq<byte> {
    if texts == [] then [] else texts[0] + [fd] + WrittenItems(texts[1..], fd)
  }

  // Items written one after the other are read back, empty ones included.
  lemma {:induction false} ArrayRoundTrip(texts: seq<seq<byte>>, fd: byte)
    requires forall k :: 0 <= k < |texts| ==> fd !in texts[k]
    ensures Trimmed(Split(WrittenItems(texts, fd), fd)) == texts
    decreases texts
  {
    if texts != [] {
      var rest := WrittenItems(texts[1..], fd);
      var s := WrittenItems(texts, fd);
      ArrayRoundTrip(texts[1..], fd);
      assert s[..|texts[0]|] == texts[0] && s[|texts[0]| + 1..] == rest;
      SplitAt(s, fd, |texts[0]|);
      TrimmedTail(texts[0], Split(rest, fd));
    }
  }

  // ---------- dictionaries ----------

  // A key and a value as text.
  type Pair = (seq<byte>, seq<byte>)

  // A value as it is written: one that can be quoted is.
  function WrittenValue(el: Elem, val: seq<byte>): seq<byte> {
    if el.OptQStrElem? then Enclosed(val) else val
  }

  function Written(pairs: seq<Pair>, el: Elem, pd: byte, fd: byte): seq<byte> {
    if pairs == [] then []
    else pairs[0].0 + [pd] + (WrittenValue(el, pairs[0].1) + [fd] + Written(pairs[1..], el, pd, fd))
  }

  // The bindings, when one more pair is bound: a key that is bound already keeps its value.
  function Bound(pair: Pair, el: Elem, fd: byte, acc: map<seq<byte>, Value>): map<seq<byte>, Value> {
    if pair.0 in acc then acc else acc[pair.0 := ElemMeaning(el, pair.1, fd)]
  }

  // The first value of every key.
  function FirstValues(pairs: seq<Pair>, el: Elem, fd: byte, acc: map<seq<byte>, Value>): map<seq<byte>, Value> {
    if pairs == [] then acc else FirstValues(pairs[1..], el, fd, Bound(pairs[0], el, fd, acc))
  }

  lemma {:induction false} FirstValuesKeep(pairs: seq<Pair>, el: Elem, fd: byte, acc: map<seq<byte>, Value>,
                                           key: seq<byte>)
    ensures var all := FirstValues(pairs, el, fd, acc);
            && (key in acc ==> key in all && all[key] == acc[key])
            && (key in all ==> key in acc || exists k :: 0 <= k < |pairs| && pairs[k].0 == key)
    ensures forall k :: 0 <= k < |pairs| ==> pairs[k].0 in FirstValues(pairs, el, fd, acc)
    decreases pairs
  {
    hide ElemMeaning;
    if pairs != [] {
      var acc' := Bound(pairs[0], el, fd, acc);
      FirstValuesKeep(pairs[1..], el, fd, acc', key);
      FirstValuesKeep(pairs[1..], el, fd, acc', pairs[0].0);
      forall k | 0 <= k < |pairs| ensures pairs[k].0 in FirstValues(pairs, el, fd, acc) {
        if k > 0 {
          assert pairs[1..][k - 1] == pairs[k];
        }
      }
      var all := FirstValues(pairs[1..], el, fd, acc');
      if key in all && key !in acc && key != pairs[0].0 {
        var k :| 0 <= k < |pairs[1..]| && pairs[1..][k].0 == key;
        assert pairs[k + 1].0 == key;
      }
    }
  }

  // A delimiter behind a text without it.
  lemma CutAt(a: seq<byte>, d: byte, b: seq<byte>)
    requires d !in a
    ensures Before(a + [d] + b, d) == a && After(a + [d] + b, d) == b
  {
    var s := a + [d] + b;
    StopIsAt(s, d, 0, |a|, |s|);
  }

  lemma ValueReadsBack(el: Elem, val: seq<byte>, fd: byte, b: seq<byte>)
    requires if el.OptQStrElem? then fd != QUOTE else fd !in val
    ensures FirstValue(WrittenValue(el, val) + [fd] + b, el, fd) == (ElemMeaning(el, val, fd), b)
  {
    hide ElemMeaning, Before, After, Enclosed, QStr;
    var w := WrittenValue(el, val);
    var t := w + [fd] + b;
    if el.OptQStrElem? {
      EnclosedQuote(val);
      assert (t + [NUL])[0..|w|] == w;
      QuotedRoundTrip(t + [NUL], 0, |t|, val);
      CutAt([], fd, b);
      assert t[|w|..] == [] + [fd] + b;
      TextElement(val, fd);
    } else {
      CutAt(val, fd, b);
    }
  }

  lemma EnclosedQuote(val: seq<byte>)
    ensures Enclosed(val) != [] && Enclosed(val)[0] == QUOTE
  {
  }

  lemma TextElement(val: seq<byte>, fd: byte)
    ensures ElemMeaning(OptQStrElem, val, fd) == Text(val)
  {
  }

  lemma {:induction false} DoubledHolds(s: seq<byte>, d: byte)
    requires d !in s && d != QUOTE
    ensures d !in Doubled(s)
  {
    if s != [] {
      DoubledHolds(s[1..], d);
    }
  }

  lemma ValueIsSkipped(el: Elem, val: seq<byte>, fd: byte, b: seq<byte>)
    requires fd !in val && (el.OptQStrElem? ==> fd != QUOTE)
    ensures After(WrittenValue(el, val) + [fd] + b, fd) == b
  {
    if el.OptQStrElem? {
      DoubledHolds(val, fd);
    }
    CutAt(WrittenValue(el, val), fd, b);
  }

  // One written entry. A quoted value may hold any bytes, but the value of a key that is bound already is skipped as if
  // it had no quotes.
  lemma PairReadsBack(pairs: seq<Pair>, el: Elem, pd: byte, fd: byte, acc: map<seq<byte>, Value>)
    requires pairs != [] && pd !in pairs[0].0
    requires el.OptQStrElem? ==> fd != QUOTE
    requires !el.OptQStrElem? || pairs[0].0 in acc ==> fd !in pairs[0].1
    ensures DictMeaning(Written(pairs, el, pd, fd), el, pd, fd, acc)
         == DictMeaning(Written(pairs[1..], el, pd, fd), el, pd, fd, Bound(pairs[0], el, fd, acc))
  {
    hide DictMeaning, FirstValue, Before, After, WrittenValue, ElemMeaning;
      var (key, val) := pairs[0];
    var rest := Written(pairs[1..], el, pd, fd);
    var t := WrittenValue(el, val) + [fd] + rest;
    DictUnfoldText(key + [pd] + t, el, pd, fd, acc);
    CutAt(key, pd, t);
    if key in acc {
      ValueIsSkipped(el, val, fd, rest);
    } else {
      ValueReadsBack(el, val, fd, rest);
    }
  }

  // Values that hold the delimiter belong to new keys.
  ghost predicate Skippable(pairs: seq<Pair>, fd: byte, acc: map<seq<byte>, Value>) {
    forall k :: 0 <= k < |pairs| && fd in pairs[k].1 ==>
                  pairs[k].0 !in acc && forall j :: 0 <= j < k ==> pairs[j].0 != pairs[k].0
  }

  lemma SkippableTail(pairs: seq<Pair>, el: Elem, fd: byte, acc: map<seq<byte>, Value>)
    requires pairs != [] && Skippable(pairs, fd, acc)
    ensures Skippable(pairs[1..], fd, Bound(pairs[0], el, fd, acc))
    ensures pairs[0].0 in acc ==> fd !in pairs[0].1
  {
    hide ElemMeaning;
    var rest := pairs[1..];
    forall k | 0 <= k < |rest| && fd in rest[k].1
      ensures rest[k].0 !in acc && rest[k].0 != pairs[0].0 && forall j :: 0 <= j < k ==> rest[j].0 != rest[k].0
    {
      assert rest[k] == pairs[k + 1];
      assert forall j :: 0 <= j < k ==> rest[j] == pairs[j + 1];
    }
  }

  // Entries written one after the other are read back, the first one of equal keys.
  lemma {:induction false} DictRoundTrip(pairs: seq<Pair>, el: Elem, pd: byte, fd: byte, acc: map<seq<byte>, Value>)
    requires forall k :: 0 <= k < |pairs| ==> pd !in pairs[k].0
    requires if el.OptQStrElem? then fd != QUOTE && Skippable(pairs, fd, acc)
             else forall k :: 0 <= k < |pairs| ==> fd !in pairs[k].1
    ensures DictMeaning(Written(pairs, el, pd, fd), el, pd, fd, acc) == FirstValues(pairs, el, fd, acc)
    decreases pairs
  {
    hide DictMeaning, Bound;
    if pairs == [] {
      EmptyMeaning(el, pd, fd, acc);
    } else {
      if el.OptQStrElem? {
        SkippableTail(pairs, el, fd, acc);
      }
      PairReadsBack(pairs, el, pd, fd, acc);
      DictRoundTrip(pairs[1..], el, pd, fd, Bound(pairs[0], el, fd, acc));
    }
  }

  // ---------- entries of any form ----------

  // A text without the delimiter behind keys is a key without a value.
  lemma KeyAlone(s: seq<byte>, el: Elem, pd: byte, fd: byte, acc: map<seq<byte>, Value>)
    requires s != [] && pd !in s
    ensures DictMeaning(s, el, pd, fd, acc)
         == if s in acc then acc else acc[s := if el.IntElem? then Integer(0) else Text([])]
  {
    hide DictMeaning;
    StopIsAt(s, pd, 0, |s|, |s|);
    assert s[..|s|] == s;
    DictUnfoldText(s, el, pd, fd, acc);
    assert TextValue([], fd) == 0;
    EmptyMeaning(el, pd, fd, acc);
    EmptyMeaning(el, pd, fd, acc[s := if el.IntElem? then Integer(0) else Text([])]);
  }

  // The text of a value up to the delimiter behind entries, or up to the end, and what is behind.
  ghost predicate EndsEntry(t: seq<byte>, val: seq<byte>, fd: byte, rest: seq<byte>) {
    fd !in val && (t == val + [fd] + rest || (t == val && rest == []))
  }

  lemma EntryCut(t: seq<byte>, val: seq<byte>, fd: byte, rest: seq<byte>)
    requires EndsEntry(t, val, fd, rest)
    ensures Before(t, fd) == val && After(t, fd) == rest
  {
    if t == val {
      StopIsAt(t, fd, 0, |t|, |t|);
      assert t[..|t|] == t;
    }
    if t == val + [fd] + rest {
      CutAt(val, fd, rest);
    }
  }

  // An entry whose value is not in quotes: the value is bound to the key, unless that has one already.
  lemma EntryReads(key: seq<byte>, t: seq<byte>, val: seq<byte>, rest: seq<byte>, el: Elem, pd: byte, fd: byte,
                   acc: map<seq<byte>, Value>)
    requires pd !in key && EndsEntry(t, val, fd, rest)
    requires key in acc || !el.OptQStrElem? || t == [] || t[0] != QUOTE
    ensures DictMeaning(key + [pd] + t, el, pd, fd, acc)
         == DictMeaning(rest, el, pd, fd,
                        if key in acc then acc
                        else acc[key := if el.IntElem? then Integer(TextValue(val, fd)) else Text(val)])
  {
    hide DictMeaning, Before, After, QStr;
    CutAt(key, pd, t);
    DictUnfoldText(key + [pd] + t, el, pd, fd, acc);
    EntryCut(t, val, fd, rest);
  }

  // An entry whose value is in quotes: what is between the closing quote and the delimiter is ignored.
  lemma QuotedEntryReads(key: seq<byte>, val: seq<byte>, t: seq<byte>, junk: seq<byte>, rest: seq<byte>, pd: byte,
                         fd: byte, acc: map<seq<byte>, Value>)
    requires pd !in key && key !in acc && EndsEntry(t, junk, fd, rest) && (t != [] ==> t[0] != QUOTE)
    ensures DictMeaning(key + [pd] + (Enclosed(val) + t), OptQStrElem, pd, fd, acc)
         == DictMeaning(rest, OptQStrElem, pd, fd, acc[key := Text(val)])
  {
    hide DictMeaning, Before, After, QStr, Enclosed;
    var w := Enclosed(val);
    var s := w + t;
    CutAt(key, pd, s);
    DictUnfoldText(key + [pd] + s, OptQStrElem, pd, fd, acc);
    EnclosedQuote(val);
    assert (s + [NUL])[0..|w|] == w;
    QuotedRoundTrip(s + [NUL], 0, |s|, val);
    assert s[|w|..] == t;
    EntryCut(t, junk, fd, rest);
  }

  // A value whose closing quote is missing is empty and takes the rest of the text.
  lemma UnclosedEntry(key: seq<byte>, s: seq<byte>, pd: byte, fd: byte, acc: map<seq<byte>, Value>)
    requires pd !in key && key !in acc
    ensures DictMeaning(key + [pd] + ([QUOTE] + Doubled(s)), OptQStrElem, pd, fd, acc) == acc[key := Text([])]
  {
    hide DictMeaning, Before, After, QStr, Doubled;
    var t := [QUOTE] + Doubled(s);
    CutAt(key, pd, t);
    DictUnfoldText(key + [pd] + t, OptQStrElem, pd, fd, acc);
    assert (t + [NUL])[1..|t|] == Doubled(s);
    UnclosedIsEmpty(t + [NUL], 0, |t|, s);
    NothingBehind(fd);
    EmptyMeaning(OptQStrElem, pd, fd, acc[key := Text([])]);
  }

  lemma NothingBehind(fd: byte)
    ensures After([], fd) == []
  {
  }

  // ---------- the keys for which written dictionaries are read back ----------

  // What is written is read back as the first value of every key.
  ghost predicate ReadsBack(pairs: seq<Pair>, el: Elem, pd: byte, fd: byte) {
    DictMeaning(Written(pairs, el, pd, fd), el, pd, fd, map[]) == FirstValues(pairs, el, fd, map[])
  }

  function Zip(keys: seq<seq<byte>>, vals: seq<seq<byte>>): (r: seq<Pair>)
    requires |keys| == |vals|
    ensures |r| == |keys| && forall k :: 0 <= k < |r| ==> r[k] == (keys[k], vals[k])
  {
    if keys == [] then [] else [(keys[0], vals[0])] + Zip(keys[1..], vals[1..])
  }

  // Values without the delimiter, unless they are quoted.
  ghost predicate Writable(el: Elem, fd: byte, vals: seq<seq<byte>>) {
    el.OptQStrElem? || forall k :: 0 <= k < |vals| ==> fd !in vals[k]
  }

  // Whatever the values are.
  ghost predicate AlwaysReadsBack(keys: seq<seq<byte>>, el: Elem, pd: byte, fd: byte) {
    forall vals: seq<seq<byte>> :: |vals| == |keys| && Writable(el, fd, vals) ==> ReadsBack(Zip(keys, vals), el, pd, fd)
  }

  ghost predicate Distinct(keys: seq<seq<byte>>) {
    forall i, j :: 0 <= i < j < |keys| ==> keys[i] != keys[j]
  }

  // Keys without the delimiter behind them; for quoted values they differ, and a quote does not end an entry.
  ghost predicate Readable(keys: seq<seq<byte>>, el: Elem, pd: byte, fd: byte) {
    && (forall k :: 0 <= k < |keys| ==> pd !in keys[k])
    && (el.OptQStrElem? && keys != [] ==> fd != QUOTE && Distinct(keys))
  }

  lemma ReadableReadsBack(keys: seq<seq<byte>>, el: Elem, pd: byte, fd: byte, vals: seq<seq<byte>>)
    requires Readable(keys, el, pd, fd) && |vals| == |keys| && Writable(el, fd, vals)
    ensures ReadsBack(Zip(keys, vals), el, pd, fd)
  {
    hide DictMeaning, Written, FirstValues;
    var pairs := Zip(keys, vals);
    if keys == [] {
      NothingReadsBack(el, pd, fd);
    } else {
      DictRoundTrip(pairs, el, pd, fd, map[]);
    }
  }

  lemma NothingReadsBack(el: Elem, pd: byte, fd: byte)
    ensures ReadsBack([], el, pd, fd)
  {
  }

  // No key that is read holds the delimiter.
  lemma {:induction false} KeysAreCut(s: seq<byte>, el: Elem, pd: byte, fd: byte, acc: map<seq<byte>, Value>,
                                      key: seq<byte>)
    requires key in DictMeaning(s, el, pd, fd, acc)
    ensures key in acc || pd !in key
    decreases |s|
  {
    hide After, FirstValue;
    if s != [] {
      var t := After(s, pd);
      if Before(s, pd) in acc {
        KeysAreCut(After(t, fd), el, pd, fd, acc, key);
      } else {
        var first := FirstValue(t, el, fd);
        KeysAreCut(first.1, el, pd, fd, acc[Before(s, pd) := first.0], key);
      }
    }
  }

  lemma DelimitedKeyLost(pairs: seq<Pair>, el: Elem, pd: byte, fd: byte, k: nat)
    requires k < |pairs| && pd in pairs[k].0
    ensures !ReadsBack(pairs, el, pd, fd)
  {
    hide DictMeaning, Written, FirstValues;
    FirstValuesKeep(pairs, el, fd, map[], pairs[k].0);
    if pairs[k].0 in DictMeaning(Written(pairs, el, pd, fd), el, pd, fd, map[]) {
      KeysAreCut(Written(pairs, el, pd, fd), el, pd, fd, map[], pairs[k].0);
    }
  }

  const LETTER: byte := 97

  // If a quote ends an entry, it is taken as the second one of a pair, and the text goes on.
  lemma QuoteSwallowed(data: seq<byte>, end: nat)
    requires 4 <= end < |data| && data[..4] == [QUOTE, LETTER, QUOTE, QUOTE]
    ensures QStr(data, 0, end).0 != [LETTER]
  {
    hide QScan, UnescapeAt, Closes;
    assert data[0] == data[..4][0] && data[1] == data[..4][1] && data[2] == data[..4][2] && data[3] == data[..4][3];
    StartInside(data, 0, end);
    ScanInside(data, 1, end);
    ScanInside(data, 2, end);
    ScanIsDoubled(data, 4, end);
    var (st, e) := QScan(data, 4, end, Inside);
    assert QScan(data, 0, end, Start) == (st, e);
    if st.Out? || st.Quote? {
      ClosesAfter(data, 4, e);
      UnescapeHead(data, 1, e - 1);
      UnescapeHead(data, 2, e - 1);
    }
  }

  // The value "a" of the first key is lost.
  lemma QuoteEndsNothing(pairs: seq<Pair>, pd: byte)
    requires pairs != [] && pd !in pairs[0].0 && pairs[0].1 == [LETTER]
    ensures !ReadsBack(pairs, OptQStrElem, pd, QUOTE)
  {
    hide DictMeaning, FirstValues, Before, After, QStr;
    var key := pairs[0].0;
    var rest := Written(pairs[1..], OptQStrElem, pd, QUOTE);
    assert [LETTER][1..] == [];
    assert Doubled([LETTER]) == [LETTER] + Doubled([]);
    assert WrittenValue(OptQStrElem, [LETTER]) == [QUOTE, LETTER, QUOTE];
    var t := [QUOTE, LETTER, QUOTE] + [QUOTE] + rest;
    assert (t + [NUL])[..4] == [QUOTE, LETTER, QUOTE, QUOTE];
    QuoteSwallowed(t + [NUL], |t|);
    DictUnfoldText(key + [pd] + t, OptQStrElem, pd, QUOTE, map[]);
    CutAt(key, pd, t);
    var first := FirstValue(t, OptQStrElem, QUOTE);
    assert first.0 != Text([LETTER]);
    MeaningKeeps(first.1, OptQStrElem, pd, QUOTE, map[key := first.0], key);
    FirstIsKept(pairs, QUOTE);
  }

  lemma FirstIsKept(pairs: seq<Pair>, fd: byte)
    requires pairs != []
    ensures var all := FirstValues(pairs, OptQStrElem, fd, map[]);
            pairs[0].0 in all && all[pairs[0].0] == Text(pairs[0].1)
  {
    FirstValuesKeep(pairs[1..], OptQStrElem, fd, Bound(pairs[0], OptQStrElem, fd, map[]), pairs[0].0);
  }

  // A key that is longer than any of the given ones and holds neither pd nor a quote.
  function LongKey(keys: seq<seq<byte>>, pd: byte): (key: seq<byte>)
    ensures pd !in key && QUOTE !in key && forall k :: 0 <= k < |keys| ==> |keys[k]| < |key|
  {
    if keys == [] then [OtherByte(pd)]
    else
      var key := LongKey(keys[1..], pd);
      assert forall k :: 1 <= k < |keys| ==> keys[1..][k - 1] == keys[k];
      if |keys[0]| < |key| then key else seq(|keys[0]| + 1, _ => OtherByte(pd))
  }

  function OtherByte(pd: byte): (b: byte)
    ensures b != pd && b != QUOTE
  {
    if pd == 1 then 2 else 1
  }

  // The bytes of a quoted value behind the delimiter in it begin with a key.
  lemma RestOfValue(key: seq<byte>, pd: byte, fd: byte, b: seq<byte>) returns (more: seq<byte>)
    requires QUOTE !in key && fd != QUOTE
    ensures After(WrittenValue(OptQStrElem, [fd] + key + [pd]) + [fd] + b, fd) == key + [pd] + more
  {
    hide Doubled, After, Before;
    var tail := if pd == QUOTE then [QUOTE] else [];
    more := tail + [QUOTE] + [fd] + b;
    LeakingDoubled(key, pd, fd);
    Regroup([fd] + (key + ([pd] + tail)), key, pd, fd, tail, b);
    CutAt([QUOTE], fd, key + [pd] + more);
  }

  lemma LeakingDoubled(key: seq<byte>, pd: byte, fd: byte)
    requires QUOTE !in key && fd != QUOTE
    ensures Doubled([fd] + key + [pd]) == [fd] + (key + ([pd] + if pd == QUOTE then [QUOTE] else []))
  {
    assert [pd][1..] == [];
    assert Doubled([pd]) == [pd] + if pd == QUOTE then [QUOTE] else [];
    hide Doubled;
    DoubledPlain(key, [pd]);
    DoubledCons(fd, key + [pd]);
    assert [fd] + (key + [pd]) == [fd] + key + [pd];
  }

  lemma Regroup(body: seq<byte>, key: seq<byte>, pd: byte, fd: byte, tail: seq<byte>, b: seq<byte>)
    requires body == [fd] + (key + ([pd] + tail))
    ensures ([QUOTE] + body + [QUOTE]) + [fd] + b == [QUOTE] + [fd] + (key + [pd] + (tail + [QUOTE] + [fd] + b))
  {
    var inner := key + [pd] + (tail + [QUOTE] + [fd] + b);
    assert inner == (key + ([pd] + tail)) + ([QUOTE] + [fd] + b);
  }

  lemma {:induction false} DoubledPlain(s: seq<byte>, b: seq<byte>)
    requires QUOTE !in s
    ensures Doubled(s + b) == s + Doubled(b)
  {
    if s == [] {
      assert s + b == b;
    } else {
      assert (s + b)[1..] == s[1..] + b;
      DoubledPlain(s[1..], b);
    }
  }

  // The value of pair j, whose key is bound by then, holds a delimiter and a new key; that key is read.
  lemma {:induction false} NewKeyRead(pairs: seq<Pair>, pd: byte, fd: byte, acc: map<seq<byte>, Value>, j: nat,
                                      key: seq<byte>)
    requires j < |pairs| && fd != QUOTE && pd !in key && QUOTE !in key && key !in acc
    requires forall k :: 0 <= k <= j ==> pd !in pairs[k].0 && pairs[k].0 != key
    requires forall k :: 0 <= k < j ==> pairs[k].1 == []
    requires pairs[j].1 == [fd] + key + [pd]
    requires pairs[j].0 in acc || exists i :: 0 <= i < j && pairs[i].0 == pairs[j].0
    ensures key in DictMeaning(Written(pairs, OptQStrElem, pd, fd), OptQStrElem, pd, fd, acc)
    decreases j
  {
    hide DictMeaning, FirstValue, Before, After, WrittenValue, ElemMeaning;
    if j == 0 {
      var rest := Written(pairs[1..], OptQStrElem, pd, fd);
      var t := WrittenValue(OptQStrElem, pairs[0].1) + [fd] + rest;
      DictUnfoldText(pairs[0].0 + [pd] + t, OptQStrElem, pd, fd, acc);
      CutAt(pairs[0].0, pd, t);
      var more := RestOfValue(key, pd, fd, rest);
      KeyRead(key, pd, fd, more, acc);
    } else {
      PairReadsBack(pairs, OptQStrElem, pd, fd, acc);
      var acc' := Bound(pairs[0], OptQStrElem, fd, acc);
      if i :| 0 <= i < j && pairs[i].0 == pairs[j].0 && pairs[j].0 !in acc' {
        assert pairs[1..][i - 1] == pairs[i];
      }
      NewKeyRead(pairs[1..], pd, fd, acc', j - 1, key);
    }
  }

  lemma KeyRead(key: seq<byte>, pd: byte, fd: byte, more: seq<byte>, acc: map<seq<byte>, Value>)
    requires pd !in key && key !in acc
    ensures key in DictMeaning(key + [pd] + more, OptQStrElem, pd, fd, acc)
  {
    hide DictMeaning, FirstValue, Before, After;
    DictUnfoldText(key + [pd] + more, OptQStrElem, pd, fd, acc);
    CutAt(key, pd, more);
    var first := FirstValue(more, OptQStrElem, fd);
    MeaningKeeps(first.1, OptQStrElem, pd, fd, acc[key := first.0], key);
  }

  // Empty values, but for one that holds the delimiter and a new key.
  function LeakingValues(keys: seq<seq<byte>>, j: nat, pd: byte, fd: byte): (vals: seq<seq<byte>>)
    requires j < |keys|
    ensures |vals| == |keys|
  {
    seq(|keys|, k => if k == j then [fd] + LongKey(keys, pd) + [pd] else [])
  }

  // The quoted value of a repeated key is cut at the delimiter inside its quotes, and what is behind it becomes a key.
  lemma RepeatedQuotedLeaks(keys: seq<seq<byte>>, i: nat, j: nat, pd: byte, fd: byte)
    requires i < j < |keys| && keys[i] == keys[j] && fd != QUOTE && forall k :: 0 <= k < |keys| ==> pd !in keys[k]
    ensures !ReadsBack(Zip(keys, LeakingValues(keys, j, pd, fd)), OptQStrElem, pd, fd)
  {
    hide DictMeaning, Written, FirstValues, LongKey;
    var key, vals := LongKey(keys, pd), LeakingValues(keys, j, pd, fd);
    var pairs := Zip(keys, vals);
    hide Zip;
    forall k | 0 <= k <= j ensures pd !in pairs[k].0 && pairs[k].0 != key && (k < j ==> pairs[k].1 == []) {
      assert pairs[k] == (keys[k], vals[k]) && |keys[k]| < |key|;
    }
    assert pairs[j].1 == vals[j] == [fd] + key + [pd];
    assert pairs[i].0 == pairs[j].0;
    NewKeyRead(pairs, pd, fd, map[], j, key);
    FirstValuesKeep(pairs, OptQStrElem, fd, map[], key);
  }

  lemma NotAlwaysReadsBack(keys: seq<seq<byte>>, el: Elem, pd: byte, fd: byte, vals: seq<seq<byte>>)
    requires |vals| == |keys| && Writable(el, fd, vals) && !ReadsBack(Zip(keys, vals), el, pd, fd)
    ensures !AlwaysReadsBack(keys, el, pd, fd)
  {
  }

  // For which keys and delimiters a written dictionary is read back, whatever its values.
  lemma AlwaysReadsBackExactly(keys: seq<seq<byte>>, el: Elem, pd: byte, fd: byte)
    ensures AlwaysReadsBack(keys, el, pd, fd) <==> Readable(keys, el, pd, fd)
  {
    hide ReadsBack;
    if Readable(keys, el, pd, fd) {
      forall vals: seq<seq<byte>> | |vals| == |keys| && Writable(el, fd, vals)
        ensures ReadsBack(Zip(keys, vals), el, pd, fd)
      {
        ReadableReadsBack(keys, el, pd, fd, vals);
      }
    } else {
      hide AlwaysReadsBack;
      var none := seq(|keys|, _ => []);
      if k :| 0 <= k < |keys| && pd in keys[k] {
        DelimitedKeyLost(Zip(keys, none), el, pd, fd, k);
        NotAlwaysReadsBack(keys, el, pd, fd, none);
      } else if fd == QUOTE {
        var vals := none[0 := [LETTER]];
        QuoteEndsNothing(Zip(keys, vals), pd);
        NotAlwaysReadsBack(keys, el, pd, fd, vals);
      } else {
        var i, j :| 0 <= i < j < |keys| && keys[i] == keys[j];
        RepeatedQuotedLeaks(keys, i, j, pd, fd);
        NotAlwaysReadsBack(keys, el, pd, fd, LeakingValues(keys, j, pd, fd));
      }
    }
  }

  // So one key written twice is not always read back when the values are quoted, and is otherwise.
  lemma WrittenTwice(key: seq<byte>, el: Elem, pd: byte, fd: byte)
    requires pd !in key
    ensures AlwaysReadsBack([key, key], el, pd, fd) <==> !el.OptQStrElem?
  {
    hide AlwaysReadsBack;
    AlwaysReadsBackExactly([key, key], el, pd, fd);
    assert [key, key][0] == [key, key][1];
  }
}
