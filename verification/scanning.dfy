/**
 Scanning a delimited record in a byte buffer.
 */
module Scanning {

  newtype byte = x: int | 0 <= x < 256

  const NUL: byte := 0
  const NEWLINE: byte := 10
  const QUOTE: byte := 34
  const MINUS: byte := 45
  const DIGIT0: byte := 48

  // ---------- positions ----------

  // The first delimiter or NUL at or after i.
  function ReachDelim(data: seq<byte>, d: byte, i: nat, end: nat): (r: nat)
    requires i <= end <= |data|
    ensures i <= r <= end
    ensures forall k :: i <= k < r ==> data[k] != d && data[k] != NUL
    ensures r < end ==> data[r] == d || data[r] == NUL
    decreases end - i
  {
    if i < end && data[i] != d && data[i] != NUL then ReachDelim(data, d, i + 1, end) else i
  }

  // Past one delimiter, if there is one.
  function ReachValue(data: seq<byte>, d: byte, i: nat, end: nat): (r: nat)
    requires i <= end <= |data|
    ensures i <= r <= end
  {
    if i < end && data[i] == d then i + 1 else i
  }

  // Past all delimiters.
  function ReachValueM(data: seq<byte>, d: byte, i: nat, end: nat): (r: nat)
    requires i <= end <= |data|
    ensures i <= r <= end
    ensures forall k :: i <= k < r ==> data[k] == d
    ensures r < end ==> data[r] != d
    decreases end - i
  {
    if i < end && data[i] == d then ReachValueM(data, d, i + 1, end) else i
  }

  method ReachDelimPos(data: seq<byte>, d: byte, start: nat, end: nat) returns (i: nat)
    requires start <= end <= |data|
    ensures i == ReachDelim(data, d, start, end)
  {
    i := start;
    while i < end
      invariant start <= i <= end
      invariant ReachDelim(data, d, i, end) == ReachDelim(data, d, start, end)
    {
      if data[i] == d || data[i] == NUL {
        break;
      }
      i := i + 1;
    }
  }

  method ReachValuePos(data: seq<byte>, d: byte, multi: bool, start: nat, end: nat) returns (i: nat)
    requires start <= end <= |data|
    ensures i == if multi then ReachValueM(data, d, start, end) else ReachValue(data, d, start, end)
  {
    i := start;
    if multi {
      while i < end && data[i] == d
        invariant start <= i <= end
        invariant ReachValueM(data, d, i, end) == ReachValueM(data, d, start, end)
      {
        i := i + 1;
      }
    } else if i < end && data[i] == d {
      i := i + 1;
    }
  }

  // ---------- splitting ----------

  // The pieces between delimiters; at least one.
  function Split(s: seq<byte>, d: byte): (r: seq<seq<byte>>)
    ensures r != []
  {
    if s == [] then [[]]
    else if s[0] == d then [[]] + Split(s[1..], d)
    else
      var rest := Split(s[1..], d);
      [[s[0]] + rest[0]] + rest[1..]
  }

  function Join(pieces: seq<seq<byte>>, d: byte): seq<byte>
    requires pieces != []
  {
    if |pieces| == 1 then pieces[0] else pieces[0] + [d] + Join(pieces[1..], d)
  }

  // Splitting loses nothing and no piece contains the delimiter.
  lemma {:induction false} SplitJoin(s: seq<byte>, d: byte)
    ensures Join(Split(s, d), d) == s
    ensures forall k :: 0 <= k < |Split(s, d)| ==> d !in Split(s, d)[k]
  {
    if s != [] {
      SplitJoin(s[1..], d);
      var rest := Split(s[1..], d);
      if s[0] == d {
        assert Split(s, d)[1..] == rest;
        assert [] + [d] + Join(rest, d) == s;
      } else {
        assert Split(s, d)[1..] == rest[1..];
        if |rest| > 1 {
          assert [s[0]] + rest[0] + [d] + Join(rest[1..], d) == [s[0]] + (rest[0] + [d] + Join(rest[1..], d));
        }
      }
    }
  }

  // Where the first piece ends, and what follows it.
  lemma {:induction false} SplitAt(s: seq<byte>, d: byte, k: nat)
    requires k <= |s| && d !in s[..k] && (k < |s| ==> s[k] == d)
    ensures Split(s, d) == [s[..k]] + if k < |s| then Split(s[k + 1..], d) else []
  {
    if k == 0 {
      assert s[..0] == [];
      if s != [] {
        assert s[1..] == s[0 + 1..];
      }
    } else {
      assert s[1..][..k - 1] == s[..k][1..];
      assert s[..k] == [s[0]] + s[1..][..k - 1];
      assert s[0] in s[..k];
      SplitAt(s[1..], d, k - 1);
      if k < |s| {
        assert s[1..][k..] == s[k + 1..];
      }
    }
  }

  // The first piece of a part of the data, up to a delimiter or the end of the part.
  lemma SplitRest(data: seq<byte>, d: byte, q: nat, e: nat, end: nat)
    requires q <= e <= end <= |data| && d !in data[q..e] && (e < end ==> data[e] == d)
    ensures Split(data[q..end], d) == [data[q..e]] + if e < end then Split(data[e + 1..end], d) else []
  {
    var s := data[q..end];
    assert s[..e - q] == data[q..e];
    if e < end {
      assert s[e - q] == data[e];
      assert s[e - q + 1..] == data[e + 1..end];
    }
    SplitAt(s, d, e - q);
  }

  function NonEmpty(pieces: seq<seq<byte>>): seq<seq<byte>> {
    if pieces == [] then []
    else (if pieces[0] == [] then [] else [pieces[0]]) + NonEmpty(pieces[1..])
  }

  function PieceAt(pieces: seq<seq<byte>>, i: nat): seq<byte> {
    if i < |pieces| then pieces[i] else []
  }

  lemma EmptySplit(s: seq<byte>, d: byte)
    requires s == []
    ensures Split(s, d) == [[]] && NonEmpty(Split(s, d)) == []
  {
  }
}
