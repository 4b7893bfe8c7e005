/**
 Writing a record and reading it back.
 */
module RecordWriting {
  import opened Scanning
  import opened Integers
  import opened Quoted
  import opened Collections
  import opened CollectionWriting
  import opened Records

  // A text to be written in a field, enclosed in quotes or as it is.
  datatype Cell = Cell(text: seq<byte>, enclosed: bool)

  // A text that can be written as it is.
  predicate Bare(text: seq<byte>, l: Layout) {
    l.d !in text && NUL !in text && (l.multi ==> text != [])
  }

  // The cell can be written in a field of the kind. A text in quotes may hold any bytes, delimiters included; a field
  // that is always quoted can be left empty.
  predicate Fits(c: Cell, k: Kind, l: Layout) {
    match k
    case QStr => l.d != QUOTE && (c.enclosed || (c.text == [] && !l.multi))
    case OptQStr => l.d != QUOTE && (c.enclosed || (Bare(c.text, l) && (c.text != [] ==> c.text[0] != QUOTE)))
    case _ => !c.enclosed && Bare(c.text, l) && Separable(k, l.d)
  }

  function Body(c: Cell): seq<byte> {
    if c.enclosed then Enclosed(c.text) else c.text
  }

  // Every cell is preceded by the delimiter.
  function WrittenCells(cells: seq<Cell>, d: byte): seq<byte> {
    if cells == [] then [] else [d] + Body(cells[0]) + WrittenCells(cells[1..], d)
  }

  // A record, with a delimiter in front of the first cell or without.
  function WrittenRecord(cells: seq<Cell>, d: byte, led: bool): seq<byte> {
    if led || cells == [] then WrittenCells(cells, d) else Body(cells[0]) + WrittenCells(cells[1..], d)
  }

  // The value of a field that is not there.
  function Missing(k: Kind): Value {
    match k
    case Int => Integer(0)
    case Array(_, _) => Items([])
    case Dict(_, _, _) => Entries(map[])
    case _ => Text([])
  }

  // The cells fit the fields from k on.
  ghost predicate FitFrom(r: Record, k: nat, cells: seq<Cell>) {
    && k + |cells| <= r.Size()
    && forall j :: 0 <= j < |cells| ==> Fits(cells[j], r.layout.kinds[k + j], r.layout)
  }

  // From position p to the end, the record holds the cells.
  ghost predicate HoldsCells(r: Record, p: nat, cells: seq<Cell>) {
    r.Ok() && Holds(r.data, p, WrittenCells(cells, r.layout.d)) && p + |WrittenCells(cells, r.layout.d)| == r.end
  }

  // The record holds the cells and nothing else.
  ghost predicate HoldsRecord(r: Record, cells: seq<Cell>, led: bool) {
    var text := WrittenRecord(cells, r.layout.d, led);
    r.Ok() && Holds(r.data, r.start, text) && r.start + |text| == r.end
  }

  // One delimiter, then a cell that does not begin with another one.
  lemma CellBegins(r: Record, p: nat, body: seq<byte>)
    requires r.Ok() && p + 1 + |body| <= r.end && Holds(r.data, p, [r.layout.d] + body)
    requires r.layout.multi ==> body != [] && body[0] != r.layout.d
    ensures Begin(r, p) == p + 1 && Holds(r.data, p + 1, body)
  {
    HoldsAt(r.data, p, [r.layout.d] + body, 0);
    HoldsSplit(r.data, p, [r.layout.d], body);
    if body != [] {
      HoldsAt(r.data, p + 1, body, 0);
    }
  }

  // A bare text ends at the delimiter or the end of the record.
  lemma BareCell(r: Record, k: nat, q: nat, text: seq<byte>)
    requires r.Ok() && Holds(r.data, q, text) && q + |text| <= r.end && k < r.Size()
    requires q + |text| < r.end ==> r.data[q + |text|] == r.layout.d
    requires Fits(Cell(text, false), r.layout.kinds[k], r.layout) && !r.layout.kinds[k].QStr?
    ensures ReachDelim(r.data, r.layout.d, q, r.end) == StrStop(r.data, r.layout.d, q, r.end) == q + |text|
    ensures FieldIn(r, k, q, q + |text|) == Meaning(r.layout.kinds[k], text, r.layout.d)
    ensures r.layout.kinds[k].OptQStr? ==> r.data[q] != QUOTE
  {
    hide Holds, ReachDelim, StrStop, FieldIn, Meaning, ArraySeparable, DictSeparable;
    var d := r.layout.d;
    forall i | q <= i < q + |text| ensures r.data[i] != d && r.data[i] != NUL {
      HoldsAt(r.data, q, text, i - q);
    }
    DelimiterIsAt(r.data, d, q, q + |text|, r.end);
    if text != [] {
      HoldsAt(r.data, q, text, 0);
    }
    HoldsText(r.data, q, text);
    FieldMeans(r, k, q, q + |text|);
  }

  lemma HoldsText(data: seq<byte>, q: nat, text: seq<byte>)
    requires Holds(data, q, text)
    ensures q + |text| <= |data| && data[q..q + |text|] == text
  {
  }

  // One cell, whose text begins at q.
  lemma CellReadAt(r: Record, k: nat, p: nat, q: nat, c: Cell)
    requires r.Ok() && k < r.Size() && Fits(c, r.layout.kinds[k], r.layout)
    requires p <= r.end && Begin(r, p) == q && Holds(r.data, q, Body(c)) && q + |Body(c)| <= r.end
    requires q + |Body(c)| < r.end ==> r.data[q + |Body(c)|] == r.layout.d
    ensures Next(r, k, p) == q + |Body(c)|
    ensures FieldIn(r, k, q, Next(r, k, p)) == Meaning(r.layout.kinds[k], c.text, r.layout.d)
  {
    hide Enclosed, ReachDelim, StrStop, Begin, Holds, FieldIn, Meaning, Next;
    if c.enclosed {
      EnclosedCell(r, k, p, q, c.text);
    } else if r.layout.kinds[k].QStr? {
      UnopenedField(r, k, p);
      EmptyMeans(QStr, r.layout.d);
    } else {
      BareCell(r, k, q, c.text);
      BareNext(r, k, p);
    }
  }

  // One cell behind a delimiter.
  lemma CellRead(r: Record, k: nat, p: nat, c: Cell)
    requires r.Ok() && k < r.Size() && Fits(c, r.layout.kinds[k], r.layout)
    requires Holds(r.data, p, [r.layout.d] + Body(c)) && p + 1 + |Body(c)| <= r.end
    requires p + 1 + |Body(c)| < r.end ==> r.data[p + 1 + |Body(c)|] == r.layout.d
    ensures Next(r, k, p) == p + 1 + |Body(c)|
    ensures FieldIn(r, k, Begin(r, p), Next(r, k, p)) == Meaning(r.layout.kinds[k], c.text, r.layout.d)
  {
    hide Begin, Holds, FieldIn, Meaning, Next, Body, Fits;
    BodyBegins(c, r.layout.kinds[k], r.layout);
    CellBegins(r, p, Body(c));
    CellReadAt(r, k, p, p + 1, c);
  }

  // A body does not begin with the delimiter.
  lemma BodyBegins(c: Cell, k: Kind, l: Layout)
    requires Fits(c, k, l)
    ensures Body(c) != [] ==> Body(c)[0] != l.d
    ensures l.multi ==> Body(c) != []
    ensures Body(c) == [] ==> !c.enclosed && c.text == []
  {
  }

  // A text in quotes ends behind its closing quote.
  lemma EnclosedCell(r: Record, k: nat, p: nat, q: nat, text: seq<byte>)
    requires r.Ok() && k < r.Size() && Fits(Cell(text, true), r.layout.kinds[k], r.layout)
    requires p <= r.end && Begin(r, p) == q && q + |Enclosed(text)| <= r.end && Holds(r.data, q, Enclosed(text))
    requires q + |Enclosed(text)| < r.end ==> r.data[q + |Enclosed(text)|] == r.layout.d
    ensures Next(r, k, p) == q + |Enclosed(text)|
    ensures FieldIn(r, k, q, Next(r, k, p)) == Meaning(r.layout.kinds[k], text, r.layout.d)
  {
    hide Quoted.QStr, Enclosed, StrStop, Begin, Holds;
    EnclosedBegins(text);
    QuotedRoundTrip(r.data, q, r.end, text);
    HoldsAt(r.data, q, Enclosed(text), 0);
  }

  // Fields that are not in quotes stop at the next delimiter.
  lemma BareNext(r: Record, k: nat, p: nat)
    requires r.Ok() && p <= r.end && k < r.Size() && !r.layout.kinds[k].QStr?
    requires r.layout.kinds[k].OptQStr? ==> r.data[Begin(r, p)] != QUOTE
    ensures var q, d := Begin(r, p), r.layout.d;
            StrStop(r.data, d, q, r.end) == ReachDelim(r.data, d, q, r.end) ==>
              Next(r, k, p) == ReachDelim(r.data, d, q, r.end)
  {
    hide Begin, StrStop, ReachDelim, Quoted.QStr;
  }

  lemma EnclosedBegins(s: seq<byte>)
    ensures Enclosed(s) != [] && Enclosed(s)[0] == QUOTE
  {
  }

  // Behind the last cell every field is missing.
  lemma {:induction false} NothingLeft(r: Record, k: nat, j: nat)
    requires r.Ok() && Cut(r, k) == r.end && k <= j
    ensures Cut(r, j) == r.end
    ensures j < r.Size() ==> Fields(r)[j] == Missing(r.layout.kinds[j])
    decreases j - k
  {
    hide Next, FieldIn, Eager, Begin, Missing;
    NothingAt(r, if j > k then j - 1 else k);
    if j > k {
      NothingLeft(r, k, j - 1);
    }
    if j < r.Size() {
      NothingAt(r, j);
      FieldIsCut(r, j);
    }
  }

  lemma NothingAt(r: Record, k: nat)
    requires r.Ok()
    ensures Begin(r, r.end) == Next(r, k, r.end) == r.end
    ensures k < r.Size() ==> FieldIn(r, k, r.end, r.end) == Missing(r.layout.kinds[k])
  {
    assert r.data[r.end..r.end] == [];
    assert TextValue([], r.layout.d) == 0;
  }

  // The cells written into the fields from k on are read back from them.
  lemma {:induction false} CellsRead(r: Record, k: nat, cells: seq<Cell>, j: nat)
    requires r.Ok() && HoldsCells(r, Cut(r, k), cells) && FitFrom(r, k, cells) && k <= j < r.Size()
    ensures Fields(r)[j] == if j < k + |cells| then Meaning(r.layout.kinds[j], cells[j - k].text, r.layout.d)
                            else Missing(r.layout.kinds[j])
    decreases |cells|
  {
    hide Next, FieldIn, Eager, Begin, Fits, Holds, Missing, Meaning;
    if cells == [] {
      NothingLeft(r, k, j);
    } else {
      FirstCell(r, k, Cut(r, k), cells);
      FieldIsCut(r, k);
      if j > k {
        CellsRead(r, k + 1, cells[1..], j);
      }
    }
  }

  lemma FirstCell(r: Record, k: nat, p: nat, cells: seq<Cell>)
    requires cells != [] && HoldsCells(r, p, cells) && FitFrom(r, k, cells)
    ensures HoldsCells(r, Next(r, k, p), cells[1..]) && FitFrom(r, k + 1, cells[1..])
    ensures FieldIn(r, k, Begin(r, p), Next(r, k, p)) == Meaning(r.layout.kinds[k], cells[0].text, r.layout.d)
  {
    hide Next, FieldIn, Begin, Fits, Holds, Meaning, Body;
    var d := r.layout.d;
    var head, rest := [d] + Body(cells[0]), WrittenCells(cells[1..], d);
    assert WrittenCells(cells, d) == head + rest;
    HoldsSplit(r.data, p, head, rest);
    if rest != [] {
      HoldsAt(r.data, p + |head|, rest, 0);
    }
    assert Fits(cells[0], r.layout.kinds[k + 0], r.layout);
    CellRead(r, k, p, cells[0]);
    FitTail(r, k, cells);
  }

  lemma FitTail(r: Record, k: nat, cells: seq<Cell>)
    requires cells != [] && FitFrom(r, k, cells)
    ensures FitFrom(r, k + 1, cells[1..])
  {
    hide Fits;
    forall j | 0 <= j < |cells[1..]| ensures Fits(cells[1..][j], r.layout.kinds[k + 1 + j], r.layout) {
      assert cells[1..][j] == cells[j + 1] && k + (j + 1) == k + 1 + j;
      assert Fits(cells[j + 1], r.layout.kinds[k + (j + 1)], r.layout);
    }
  }

  // The first cell of a record that does not begin with the delimiter.
  lemma FirstUnled(r: Record, cells: seq<Cell>)
    requires cells != [] && HoldsRecord(r, cells, false) && FitFrom(r, 0, cells) && Body(cells[0]) != []
    ensures HoldsCells(r, Cut(r, 1), cells[1..]) && FitFrom(r, 1, cells[1..])
    ensures Fields(r)[0] == Meaning(r.layout.kinds[0], cells[0].text, r.layout.d)
  {
    hide *;
    FitHead(r, 0, cells);
    BodyBegins(cells[0], r.layout.kinds[0], r.layout);
    UnledHolds(r, cells);
    BeginsAt(r, r.start);
    CellReadAt(r, 0, r.start, r.start, cells[0]);
    CutOne(r);
    RestHolds(r, cells);
    FieldIsCut(r, 0);
    FitTail(r, 0, cells);
  }

  lemma FitHead(r: Record, k: nat, cells: seq<Cell>)
    requires cells != [] && FitFrom(r, k, cells)
    ensures k < r.Size() == |r.layout.kinds| && Fits(cells[0], r.layout.kinds[k], r.layout)
  {
    hide Fits;
    assert Fits(cells[0], r.layout.kinds[k + 0], r.layout);
  }

  // Where the first body is, and what follows it.
  lemma UnledHolds(r: Record, cells: seq<Cell>)
    requires cells != [] && HoldsRecord(r, cells, false) && Body(cells[0]) != [] && Body(cells[0])[0] != r.layout.d
    ensures var q := r.start + |Body(cells[0])|;
            && r.Ok() && r.start < q <= r.end && Holds(r.data, r.start, Body(cells[0])) && r.data[r.start] != r.layout.d
            && (q < r.end ==> r.data[q] == r.layout.d)
  {
    hide Body, Holds, WrittenCells, WrittenRecord;
    var body, rest := Body(cells[0]), WrittenCells(cells[1..], r.layout.d);
    UnledIs(cells, r.layout.d);
    HoldsSplit(r.data, r.start, body, rest);
    HoldsAt(r.data, r.start, body, 0);
    if rest != [] {
      HoldsAt(r.data, r.start + |body|, rest, 0);
    }
  }

  lemma UnledIs(cells: seq<Cell>, d: byte)
    requires cells != []
    ensures var rest := WrittenCells(cells[1..], d);
            WrittenRecord(cells, d, false) == Body(cells[0]) + rest && (rest != [] ==> rest[0] == d)
  {
    hide Body;
  }

  lemma RestHolds(r: Record, cells: seq<Cell>)
    requires cells != [] && HoldsRecord(r, cells, false)
    ensures HoldsCells(r, r.start + |Body(cells[0])|, cells[1..])
  {
    hide Body, Holds, WrittenCells;
    HoldsSplit(r.data, r.start, Body(cells[0]), WrittenCells(cells[1..], r.layout.d));
  }

  lemma CutOne(r: Record)
    requires r.Ok()
    ensures Cut(r, 0) == r.start && Cut(r, 1) == Next(r, 0, r.start)
  {
    hide Next;
    assert Cut(r, 1) == Next(r, 0, Cut(r, 0));
  }

  lemma BeginsAt(r: Record, p: nat)
    requires r.Ok() && p < r.end && r.data[p] != r.layout.d
    ensures Begin(r, p) == p
  {
  }

  lemma EmptyMeans(k: Kind, d: byte)
    ensures Meaning(k, [], d) == Missing(k)
  {
  }

  // What the fields of a written record are: the cells, one by one; fields that were not written are empty.
  ghost predicate ReadAs(r: Record, cells: seq<Cell>)
    requires r.Ok()
  {
    forall j :: 0 <= j < r.Size() ==>
                  Fields(r)[j] == if j < |cells| then Meaning(r.layout.kinds[j], cells[j].text, r.layout.d)
                  else Missing(r.layout.kinds[j])
  }

  // A written record reads back, field by field. Without a delimiter in front, the first body must not be empty,
  // unless it is the only one.
  lemma RecordRoundTrip(r: Record, cells: seq<Cell>, led: bool)
    requires HoldsRecord(r, cells, led) && FitFrom(r, 0, cells)
    requires led || |cells| < 2 || Body(cells[0]) != []
    ensures ReadAs(r, cells)
  {
    hide Fields, Next, FieldIn, Begin, Fits, Holds, Missing, Meaning;
    forall j | 0 <= j < r.Size()
      ensures Fields(r)[j] == if j < |cells| then Meaning(r.layout.kinds[j], cells[j].text, r.layout.d)
                              else Missing(r.layout.kinds[j])
    {
      assert Cut(r, 0) == r.start;
      if led || cells == [] {
        CellsRead(r, 0, cells, j);
      } else if Body(cells[0]) != [] {
        FirstUnled(r, cells);
        if j > 0 {
          CellsRead(r, 1, cells[1..], j);
        }
      } else {
        assert Fits(cells[0], r.layout.kinds[0 + 0], r.layout);
        BodyBegins(cells[0], r.layout.kinds[0], r.layout);
        EmptyMeans(r.layout.kinds[j], r.layout.d);
        NothingLeft(r, 0, j);
      }
    }
  }

  // If the first body is empty, the delimiter behind it is taken as the one in front of the second cell: every cell is
  // read one field too early.
  lemma EmptyFirstShifts(r: Record, cells: seq<Cell>)
    requires HoldsRecord(r, cells, false) && |cells| >= 2 && Body(cells[0]) == [] && FitFrom(r, 0, cells[1..])
    ensures ReadAs(r, cells[1..])
  {
    hide Holds, Fits, Body, ReadAs;
    var rest := WrittenCells(cells[1..], r.layout.d);
    assert [] + rest == rest;
    RecordRoundTrip(r, cells[1..], true);
  }

  // An array that was written item by item is read back.
  lemma ArrayFieldRoundTrip(r: Record, cells: seq<Cell>, led: bool, j: nat, texts: seq<seq<byte>>)
    requires HoldsRecord(r, cells, led) && FitFrom(r, 0, cells) && j < |cells|
    requires led || |cells| < 2 || Body(cells[0]) != []
    requires r.layout.kinds[j].Array? && cells[j].text == WrittenItems(texts, r.layout.kinds[j].fd)
    requires forall k :: 0 <= k < |texts| ==> r.layout.kinds[j].fd !in texts[k]
    ensures var k := r.layout.kinds[j]; Fields(r)[j] == Items(Elements(texts, ArrayElem(k.ints), k.fd))
  {
    hide Fields, Elements, Trimmed, Split, WrittenItems, HoldsRecord;
    RecordRoundTrip(r, cells, led);
    ArrayRoundTrip(texts, r.layout.kinds[j].fd);
  }

  // A dictionary field that was written entry by entry holds the first value of every key exactly if the entries are
  // read back.
  lemma DictFieldRoundTrip(r: Record, cells: seq<Cell>, led: bool, j: nat, pairs: seq<Pair>)
    requires HoldsRecord(r, cells, led) && FitFrom(r, 0, cells) && j < |cells|
    requires led || |cells| < 2 || Body(cells[0]) != []
    requires var k := r.layout.kinds[j]; k.Dict? && cells[j].text == Written(pairs, k.el, k.pd, k.fd)
    ensures var k := r.layout.kinds[j];
            Fields(r)[j] == Entries(FirstValues(pairs, k.el, k.fd, map[])) <==> ReadsBack(pairs, k.el, k.pd, k.fd)
    ensures var k := r.layout.kinds[j];
            && (forall n :: 0 <= n < |pairs| ==> k.pd !in pairs[n].0)
            && (if k.el.OptQStrElem? then k.fd != QUOTE && Skippable(pairs, k.fd, map[])
                else forall n :: 0 <= n < |pairs| ==> k.fd !in pairs[n].1)
            ==> Fields(r)[j] == Entries(FirstValues(pairs, k.el, k.fd, map[]))
  {
    hide Fields, DictMeaning, Written, FirstValues, HoldsRecord, Skippable;
    var k := r.layout.kinds[j];
    RecordRoundTrip(r, cells, led);
    if && (forall n :: 0 <= n < |pairs| ==> k.pd !in pairs[n].0)
       && if k.el.OptQStrElem? then k.fd != QUOTE && Skippable(pairs, k.fd, map[])
          else forall n :: 0 <= n < |pairs| ==> k.fd !in pairs[n].1
    {
      DictRoundTrip(pairs, k.el, k.pd, k.fd, map[]);
    }
  }
}
