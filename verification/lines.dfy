/**
 Reading lines from a file in chunks, or from a compressed stream that cannot seek.
 */
module Lines {
  import opened Scanning

  datatype Line = Line(text: seq<byte>, end: byte)

  predicate EndsLine(ch: byte) {
    ch == NEWLINE || ch == NUL
  }

  // The bytes behind the last terminator.
  function Tail(s: seq<byte>): seq<byte> {
    if s == [] then []
    else
      var last := |s| - 1;
      if EndsLine(s[last]) then [] else Tail(s[..last]) + [s[last]]
  }

  // The terminated lines.
  function Terminated(s: seq<byte>): seq<Line> {
    if s == [] then []
    else
      var last := |s| - 1;
      if EndsLine(s[last]) then Terminated(s[..last]) + [Line(Tail(s[..last]), s[last])] else Terminated(s[..last])
  }

  function Flat(lines: seq<Line>): seq<byte> {
    if lines == [] then []
    else
      var last := |lines| - 1;
      Flat(lines[..last]) + lines[last].text + [lines[last].end]
  }

  // One byte per terminator.
  function Bytes(lines: seq<Line>): nat {
    if lines == [] then 0 else Bytes(lines[..|lines| - 1]) + |lines[|lines| - 1].text| + 1
  }

  ghost predicate NoTerminator(s: seq<byte>) {
    forall k :: 0 <= k < |s| ==> !EndsLine(s[k])
  }

  // The lines and the tail are the whole input, and nothing else can be: every line ends at its first terminator.
  lemma {:induction false} LinesConserve(s: seq<byte>)
    ensures Flat(Terminated(s)) + Tail(s) == s && Bytes(Terminated(s)) == |Flat(Terminated(s))|
    ensures NoTerminator(Tail(s))
    ensures forall k :: 0 <= k < |Terminated(s)| ==>
                          NoTerminator(Terminated(s)[k].text) && EndsLine(Terminated(s)[k].end)
    ensures 0 !in Tail(s) && 10 !in Tail(s)
    ensures forall k :: 0 <= k < |Terminated(s)| ==>
                          var line := Terminated(s)[k];
                          0 !in line.text && 10 !in line.text && (line.end == 0 || line.end == 10)
  {
    if s != [] {
      var last := |s| - 1;
      LinesConserve(s[..last]);
      assert s == s[..last] + [s[last]];
      if EndsLine(s[last]) {
        assert Terminated(s)[..|Terminated(s)| - 1] == Terminated(s[..last]);
      }
    }
    forall k | 0 <= k < |Terminated(s)| ensures 0 !in Terminated(s)[k].text && 10 !in Terminated(s)[k].text {
      Terminators(Terminated(s)[k].text);
    }
    Terminators(Tail(s));
  }

  // Lines end at a line feed or NUL.
  lemma Terminators(s: seq<byte>)
    ensures NoTerminator(s) <==> 0 !in s && 10 !in s
  {
  }

  // The only lines and tail that make up the input are these.
  lemma {:induction false} LinesUnique(s: seq<byte>, lines: seq<Line>, tail: seq<byte>)
    requires Flat(lines) + tail == s && NoTerminator(tail)
    requires forall k :: 0 <= k < |lines| ==> NoTerminator(lines[k].text) && EndsLine(lines[k].end)
    ensures lines == Terminated(s) && tail == Tail(s)
    decreases |lines|
  {
    hide Terminated, Tail, NoTerminator, EndsLine;
    TailFrom(Flat(lines), tail);
    if lines == [] {
      NoLines();
    } else {
      var last := |lines| - 1;
      var front := Flat(lines[..last]);
      assert front + [] == front;
      NoBytes();
      LinesUnique(front, lines[..last], []);
      LineAdds(front, lines[last].text, lines[last].end);
      assert lines == lines[..last] + [lines[last]];
    }
    assert [] + tail == tail;
  }

  lemma NoLines()
    ensures Terminated([]) == [] && Tail([]) == []
  {
  }

  lemma NoBytes()
    ensures NoTerminator([])
  {
  }

  // A line behind complete lines.
  lemma LineAdds(front: seq<byte>, text: seq<byte>, end: byte)
    requires NoTerminator(text) && EndsLine(end) && Tail(front) == []
    ensures var s := front + text + [end]; Terminated(s) == Terminated(front) + [Line(text, end)] && Tail(s) == []
  {
    hide EndsLine, NoTerminator;
    var s := front + text + [end];
    assert s[..|s| - 1] == front + text;
    TailFrom(front, text);
    assert [] + text == text;
  }

  // Bytes without a terminator only lengthen the tail.
  lemma {:induction false} TailFrom(s: seq<byte>, more: seq<byte>)
    requires NoTerminator(more)
    ensures Terminated(s + more) == Terminated(s) && Tail(s + more) == Tail(s) + more
    decreases |more|
  {
    if more == [] {
      assert s + more == s;
    } else {
      var last := |more| - 1;
      assert (s + more)[..|s| + last] == s + more[..last];
      assert more == more[..last] + [more[last]];
      TailFrom(s, more[..last]);
    }
  }

  // The first terminator behind a line boundary ends one more line.
  lemma LineEnds(s: seq<byte>, b: nat, t: nat)
    requires b <= t < |s| && EndsLine(s[t]) && NoTerminator(s[b..t]) && Tail(s[..b]) == []
    ensures Terminated(s[..t + 1]) == Terminated(s[..b]) + [Line(s[b..t], s[t])] && Tail(s[..t + 1]) == []
  {
    assert s[..t + 1][..t] == s[..b] + s[b..t];
    TailFrom(s[..b], s[b..t]);
    assert [] + s[b..t] == s[b..t];
  }

  lemma BytesAdd(lines: seq<Line>, line: Line)
    ensures Bytes(lines + [line]) == Bytes(lines) + |line.text| + 1
  {
    assert (lines + [line])[..|lines|] == lines;
  }

  class LineReader {
    // The file as written so far, and the offset behind the bytes that have been read.
    var content: seq<byte>
    var off: nat
    // The buffer and the position in it.
    var buf: seq<byte>
    var pos: nat
    // What a stream that cannot seek has left over.
    var tail: seq<byte>
    // What has been delivered, and the counters.
    var lines: seq<Line>
    var nlines: nat
    var nbytes: nat
    // The position from which the buffer is recycled.
    const growsz: int

    constructor (growsz: int)
      ensures Idle() && content == [] && tail == [] && this.growsz == growsz
    {
      content, off, buf, pos, tail := [], 0, [], 0, [];
      lines, nlines, nbytes := [], 0, 0;
      this.growsz := growsz;
    }

    // What has been delivered is exactly the lines before byte b, and b begins a line.
    ghost predicate Delivered(b: int)
      reads this`content, this`lines, this`nlines, this`nbytes
    {
      && 0 <= b <= |content|
      && lines == Terminated(content[..b]) && Tail(content[..b]) == []
      && nlines == |lines| && nbytes == Bytes(lines)
    }

    // Between calls.
    ghost predicate Idle()
      reads this`content, this`off, this`tail, this`lines, this`nlines, this`nbytes
    {
      && |tail| <= off <= |content| && tail == content[off - |tail|..off]
      && Delivered(off - |tail|)
    }

    // Where the buffer begins in the file.
    function Base(): int
      reads this
    {
      off - |buf|
    }

    // The buffer holds the bytes before the offset.
    ghost predicate Buffered()
      reads this
    {
      pos <= |buf| <= off <= |content| && Loaded()
    }

    ghost predicate Loaded()
      requires |buf| <= off <= |content|
      reads this`content, this`off, this`buf
    {
      buf == content[off - |buf|..off]
    }

    lemma ByteAt(i: nat)
      requires Buffered() && i < |buf|
      ensures buf[i] == content[Base() + i]
    {
    }

    // Between calls the tail is what a buffer holds, and nothing of it has been delivered.
    lemma StartsLoaded()
      requires Idle()
      ensures 0 <= off - |tail| <= off <= |content| && Delivered(off - |tail|)
      ensures buf == tail ==> Loaded()
    {
    }

    lemma RestIs(i: nat)
      requires Buffered() && i <= |buf|
      ensures buf[i..] == content[Base() + i..off]
    {
      assert content[Base()..off][i..] == content[Base() + i..off];
    }

    lemma EndsIdle()
      requires |tail| <= off <= |content| && Delivered(off - |tail|)
      requires tail == [] || (Buffered() && tail == buf[pos..])
      ensures Idle()
    {
      if tail != [] {
        var base := Base();
        assert tail == content[base..off][pos..];
        assert content[base..off][pos..] == content[base + pos..off];
      } else {
        assert content[off..off] == [];
      }
    }

    // At the end of the data without a terminator, all lines have been delivered.
    lemma AllLines(b: nat)
      requires Delivered(b) && b <= |content| && NoTerminator(content[b..])
      ensures lines == Terminated(content) && Tail(content) == content[b..]
    {
      AllDelivered(content, b);
    }

    // The file grows between calls.
    method Append(more: seq<byte>)
      requires Idle()
      modifies this`content
      ensures Idle() && content == old(content) + more
    {
      assert (content + more)[..off - |tail|] == content[..off - |tail|];
      assert (content + more)[off - |tail|..off] == content[off - |tail|..off];
      content := content + more;
    }

    // Appends any nonempty chunk of what the file holds, or reports the end of data.
    method ReadMore() returns (n: nat)
      requires Buffered()
      modifies this`off, this`buf
      ensures Buffered() && off == old(off) + n && Base() == old(Base()) && buf[..|old(buf)|] == old(buf)
      ensures n == 0 <==> old(off) == |content|
    {
      if off == |content| {
        n := 0;
      } else {
        n :| 0 < n <= |content| - off;
        assert content[Base()..off + n] == content[Base()..off] + content[off..off + n];
        buf := buf + content[off..off + n];
        off := off + n;
      }
    }

    // Moves to the next terminator, reading more as needed; without one, stays at the beginning of the line.
    method ReachDelim(limit: int) returns (eod: bool)
      requires Buffered() && |buf| <= limit
      modifies this`off, this`buf, this`pos
      ensures Buffered() && Base() == old(Base()) && old(pos) <= pos && old(off) <= off
      ensures NoTerminator(content[Base() + old(pos)..Base() + pos])
      ensures !eod ==> pos < |buf| && EndsLine(buf[pos])
      ensures eod ==> pos == old(pos) && off == |content| && NoTerminator(content[Base() + pos..])
    {
      hide NoTerminator, EndsLine, Loaded;
      var epos := limit;
      var oldspos := pos;
      ghost var base: nat := Base();
      NoTerminatorNone(content, base + pos);
      while pos <= epos
        invariant Buffered() && Base() == base && oldspos <= pos && old(off) <= off
        invariant |buf| <= epos
        invariant NoTerminator(content[base + oldspos..base + pos])
        decreases |content| - base - pos
      {
        if pos >= |buf| {
          var n := ReadMore();
          if n <= 0 {
            NoTerminatorToEnd(content, base + oldspos);
            pos := oldspos;
            return true;
          }
          epos := |buf|;
        }
        ByteAt(pos);
        if EndsLine(buf[pos]) {
          return false;
        }
        NoTerminatorAdd(content, base + oldspos, base + pos);
        pos := pos + 1;
      }
      assert false;
    }

    // Hands out the line from start to the terminator at the position, and steps over the terminator.
    method HandOut(start: nat)
      requires Buffered() && start <= pos < |buf| && EndsLine(buf[pos])
      requires Delivered(Base() + start) && NoTerminator(content[Base() + start..Base() + pos])
      modifies this`pos, this`lines, this`nlines, this`nbytes
      ensures Buffered() && Delivered(Base() + pos) && pos == old(pos) + 1
      ensures lines == old(lines) + [Line(buf[start..old(pos)], buf[old(pos)])]
    {
      hide NoTerminator, EndsLine, Terminated, Tail, Bytes;
      var line := Line(buf[start..pos], buf[pos]);
      ghost var b, t := Base() + start, Base() + pos;
      SliceOf(content, Base(), off, start, pos);
      LineEnds(content, b, t);
      BytesAdd(lines, line);
      nbytes := nbytes + (pos - start + 1);
      nlines := nlines + 1;
      lines := lines + [line];
      if pos < |buf| {
        pos := pos + 1;
      }
    }

    // Drops the bytes before the position from the buffer.
    method Recycle()
      requires Buffered()
      modifies this`buf, this`pos
      ensures Buffered() && pos == 0 && Base() + pos == old(Base() + pos)
    {
      buf := buf[pos..];
      pos := 0;
    }

    // Hands out lines until the data end, or until the recycling callback asks to stop.
    method Deliver() returns (stopped: bool)
      requires Buffered() && Delivered(Base() + pos)
      modifies this`off, this`buf, this`pos, this`lines, this`nlines, this`nbytes
      ensures Buffered() && Delivered(Base() + pos) && old(Base() + pos) <= Base() + pos && old(off) <= off
      ensures stopped ==> old(Base() + pos) < Base() + pos
      ensures !stopped ==> off == |content| && NoTerminator(content[Base() + pos..])
    {
      hide NoTerminator, EndsLine, Terminated, Tail, Bytes;
      // The program starts with the largest offset.
      var limit: int :| |buf| <= limit;
      while true
        invariant Buffered() && Delivered(Base() + pos) && |buf| <= limit
        invariant old(Base() + pos) <= Base() + pos && old(off) <= off
        decreases |content| - Base() - pos
      {
        var start := pos;
        var eod := ReachDelim(limit);
        if eod {
          return false;
        }
        HandOut(start);
        limit := |buf|;
        if pos >= growsz - 8192 {
          Recycle();
          limit := |buf|;
          var stop: bool := *;
          if stop {
            return true;
          }
        }
      }
    }

    // Reads lines from a file; the bytes behind the last line are given back by seeking.
    method ReadLines() returns (stopped: bool)
      requires Idle() && tail == []
      modifies this
      ensures Idle() && tail == [] && content == old(content) && old(off) <= off && (stopped ==> old(off) < off)
      ensures !stopped ==> lines == Terminated(content) && off == |content| - |Tail(content)|
    {
      hide NoTerminator, Terminated, Tail, Bytes, Delivered, Loaded, Idle;
      buf, pos := [], 0;
      StartsLoaded();
      stopped := Deliver();
      var diff := pos - |buf|;
      assert diff <= 0;
      if !stopped {
        AllLines(Base() + pos);
      }
      off := off + diff;
      EndsIdle();
    }

    // Reads lines from a stream; the bytes behind the last line are kept.
    method ReadLinesBz2() returns (stopped: bool)
      requires Idle()
      modifies this
      ensures Idle() && content == old(content) && old(off) <= off
      ensures !stopped ==> lines == Terminated(content) && off == |content| && tail == Tail(content)
    {
      hide NoTerminator, Terminated, Tail, Bytes, Delivered, Loaded, Idle;
      buf, pos := tail, 0;
      StartsLoaded();
      tail := [];
      stopped := Deliver();
      var diff := pos - |buf|;
      assert diff <= 0;
      if !stopped {
        AllLines(Base() + pos);
      }
      if diff < 0 {
        tail := buf[pos..];
        RestIs(pos);
      }
      EndsIdle();
    }

    // Calls over a growing file, each reading to the end of the data, deliver the lines of everything written.
    method Follow(batches: seq<seq<byte>>)
      requires Idle() && tail == []
      modifies this
      ensures Idle() && tail == [] && content == old(content) + Joined(batches)
      ensures batches != [] ==> lines == Terminated(content) && off == |content| - |Tail(content)|
    {
      hide Terminated, Tail, Bytes;
      assert batches[..0] == [];
      for i := 0 to |batches|
        invariant Idle() && tail == [] && content == old(content) + Joined(batches[..i])
        invariant i > 0 ==> lines == Terminated(content) && off == |content| - |Tail(content)|
      {
        Append(batches[i]);
        assert batches[..i + 1][..i] == batches[..i];
        var stopped := true;
        while stopped
          invariant Idle() && tail == [] && content == old(content) + Joined(batches[..i + 1])
          invariant !stopped ==> lines == Terminated(content) && off == |content| - |Tail(content)|
          decreases |content| - off, stopped
        {
          stopped := ReadLines();
        }
      }
      assert batches[..|batches|] == batches;
    }
  }

  function Joined(batches: seq<seq<byte>>): seq<byte> {
    if batches == [] then [] else Joined(batches[..|batches| - 1]) + batches[|batches| - 1]
  }

  lemma NoTerminatorAdd(s: seq<byte>, b: nat, t: nat)
    requires b <= t < |s| && NoTerminator(s[b..t]) && !EndsLine(s[t])
    ensures NoTerminator(s[b..t + 1])
  {
    assert s[b..t + 1] == s[b..t] + [s[t]];
  }

  lemma SliceOf(s: seq<byte>, base: nat, off: nat, i: nat, j: nat)
    requires base <= off <= |s| && i <= j < off - base
    ensures s[base..off][i..j] == s[base + i..base + j] && s[base..off][j] == s[base + j]
  {
    var a, b := s[base..off][i..j], s[base + i..base + j];
    forall k | 0 <= k < |a| ensures a[k] == b[k] {
      assert a[k] == s[base..off][i + k];
    }
    assert a == b;
  }

  lemma NoTerminatorToEnd(s: seq<byte>, b: nat)
    requires b <= |s| && NoTerminator(s[b..|s|])
    ensures NoTerminator(s[b..]) && NoTerminator(s[b..b])
  {
    assert s[b..|s|] == s[b..];
  }

  lemma NoTerminatorNone(s: seq<byte>, b: nat)
    requires b <= |s|
    ensures NoTerminator(s[b..b])
  {
  }

  // Without a terminator behind b, the lines before b are all there are.
  lemma AllDelivered(s: seq<byte>, b: nat)
    requires b <= |s| && NoTerminator(s[b..]) && Tail(s[..b]) == []
    ensures Terminated(s) == Terminated(s[..b]) && Tail(s) == s[b..]
  {
    assert s == s[..b] + s[b..];
    TailFrom(s[..b], s[b..]);
    assert [] + s[b..] == s[b..];
  }
}
