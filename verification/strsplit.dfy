/**
 Splitting a string value at a delimiter.
 */
module StringSplitting {
  import opened Scanning

  // A string value: its bytes and a terminating NUL.
  function StringBytes(s: seq<byte>): seq<byte> {
    s + [NUL]
  }

  // The pieces before i, and what remains to be split from s0 on.
  lemma SplitMore(data: seq<byte>, ch: byte, s0: nat, s1: nat, end: nat)
    requires s0 <= s1 < end <= |data| && ch !in data[s0..s1]
    ensures data[s1] == ch ==> Split(data[s0..end], ch) == [data[s0..s1]] + Split(data[s1 + 1..end], ch)
    ensures data[s1] != ch ==> ch !in data[s0..s1 + 1]
  {
    if data[s1] == ch {
      SplitRest(data, ch, s0, s1, end);
    } else {
      assert data[s0..s1 + 1] == data[s0..s1] + [data[s1]];
    }
  }

  // Walks over the bytes with the terminator: at every delimiter a piece ends, and the last piece is cut one short,
  // where the terminator is. The delimiter is the first byte of a string value, so it can be NUL.
  method SplitString(str: seq<byte>, delim: seq<byte>) returns (items: seq<seq<byte>>)
    ensures items == Split(str, StringBytes(delim)[0])
  {
    hide Split;
    var data := StringBytes(str);
    var ch := StringBytes(delim)[0];
    var s0, s1 := 0, 0;
    items := [];
    ghost var n := |str|;
    assert data[0..n] == str;
    while s0 < |data| && s1 < |data|
      invariant s0 <= s1 <= |data| && (s0 == |data| ==> ch == NUL)
      invariant ch !in data[s0..s1]
      invariant s0 <= n ==> Split(str, ch) == items + Split(data[s0..n], ch)
      invariant s0 > n ==> Split(str, ch) == items
      decreases |data| - s1
    {
      if data[s1] == ch {
        if s1 < n {
          SplitMore(data, ch, s0, s1, n);
          AddPiece(items, data[s0..s1], Split(data[s1 + 1..n], ch));
        } else {
          LastPiece(data[s0..n], ch);
        }
        items := items + [data[s0..s1]];
        s0 := s1 + 1;
      } else {
        assert data[s0..s1 + 1] == data[s0..s1] + [data[s1]];
      }
      s1 := s1 + 1;
    }
    if s1 > s0 {
      assert data[s0..s1][..s1 - s0 - 1] == data[s0..n];
      LastPiece(data[s0..n], ch);
      items := items + [data[s0..s1][..s1 - s0 - 1]];
    }
  }

  lemma AddPiece(items: seq<seq<byte>>, piece: seq<byte>, rest: seq<seq<byte>>)
    ensures items + ([piece] + rest) == (items + [piece]) + rest
  {
  }

  lemma LastPiece(s: seq<byte>, ch: byte)
    requires ch !in s
    ensures Split(s, ch) == [s]
  {
    SplitAt(s, ch, |s|);
    assert s[..|s|] == s;
  }
}
