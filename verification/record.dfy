/**
 One delimited record, scanned from left to right.

 This is the reference meaning of a record: where every field begins and ends, and the value of every field. The lazy
 parser in LazyRecords is proved to agree with it.
 */
module Records {
  import opened Scanning
  import opened Integers
  import opened Quoted
  import opened Collections

  datatype Kind =
    | Str
    | Int
    | QStr
    | OptQStr
    | Array(ints: bool, fd: byte)
    | Dict(el: Elem, pd: byte, fd: byte)

  // Field kinds, the field delimiter, and whether runs of delimiters count as one.
  datatype Layout = Layout(kinds: seq<Kind>, d: byte, multi: bool)

  // Positions share a word with a flag in bit 31.
  const FLAG: int := 0x8000_0000

  // A record is data[start..end]; the byte behind it ends the line.
  datatype Record = Record(data: seq<byte>, start: nat, end: nat, layout: Layout) {
    predicate Ok() {
      start <= end < FLAG && Ended(data, end)
    }

    // The number of fields.
    function Size(): nat {
      |layout.kinds|
    }
  }

  predicate IsQuoted(k: Kind) {
    k.QStr? || k.OptQStr?
  }

  // Where a field's text begins, given the position where the previous field stopped.
  function Begin(r: Record, p: nat): (q: nat)
    requires r.Ok() && p <= r.end
    ensures p <= q <= r.end
  {
    if r.layout.multi then ReachValueM(r.data, r.layout.d, p, r.end) else ReachValue(r.data, r.layout.d, p, r.end)
  }

  // Where field k stops. Behind the last field, the rest is scanned like a plain field.
  function Next(r: Record, k: nat, p: nat): (e: nat)
    requires r.Ok() && p <= r.end
    ensures Begin(r, p) <= e <= r.end
  {
    var q := Begin(r, p);
    if k < r.Size() && IsQuoted(r.layout.kinds[k]) then
      if r.layout.kinds[k].QStr? || r.data[q] == QUOTE then Quoted.QStr(r.data, q, r.end).1
      else StrStop(r.data, r.layout.d, q, r.end)
    else ReachDelim(r.data, r.layout.d, q, r.end)
  }

  function ArrayElem(ints: bool): Elem {
    if ints then IntElem else StrElem
  }

  // The value of field k, which begins at q and stops at e.
  function FieldIn(r: Record, k: nat, q: nat, e: nat): Value
    requires r.Ok() && q <= e <= r.end && k < r.Size()
  {
    match r.layout.kinds[k]
    case Str => Text(r.data[q..e])
    case Int => Integer(TextValue(r.data[q..r.end], r.layout.d))
    case QStr => Text(Quoted.QStr(r.data, q, r.end).0)
    case OptQStr => Text(if r.data[q] == QUOTE then Quoted.QStr(r.data, q, r.end).0 else r.data[q..e])
    case Array(ints, fd) => Items(ArrayItems(r.data, ArrayElem(ints), fd, q, e, r.end))
    case Dict(el, pd, fd) => Entries(DictEntries(r.data, el, pd, fd, q, e, r.end, map[]))
  }

  // The values of the fields from k on, in one pass from position p.
  function Eager(r: Record, k: nat, p: nat): (vs: seq<Value>)
    requires r.Ok() && p <= r.end && k <= r.Size()
    ensures |vs| == r.Size() - k
    decreases r.Size() - k
  {
    if k == r.Size() then [] else [FieldIn(r, k, Begin(r, p), Next(r, k, p))] + Eager(r, k + 1, Next(r, k, p))
  }

  // All field values of the record.
  function Fields(r: Record): (vs: seq<Value>)
    requires r.Ok()
    ensures |vs| == r.Size()
  {
    Eager(r, 0, r.start)
  }

  // The position where the fields before k stop.
  function Cut(r: Record, k: nat): (p: nat)
    requires r.Ok()
    ensures p <= r.end
  {
    if k == 0 then r.start else Next(r, k - 1, Cut(r, k - 1))
  }

  // The text that belongs to field k.
  function FieldText(r: Record, k: nat): seq<byte>
    requires r.Ok()
  {
    r.data[Begin(r, Cut(r, k))..Cut(r, k + 1)]
  }

  // Positions never go back and stay in the record.
  lemma {:induction false} CutsRise(r: Record, j: nat, k: nat)
    requires r.Ok() && j <= k
    ensures r.start <= Cut(r, j) <= Cut(r, k) <= r.end
  {
    hide Next, Begin;
    if k > 0 {
      if j < k {
        CutsRise(r, j, k - 1);
      } else {
        CutsRise(r, k - 1, k - 1);
      }
    }
  }

  // Field k can be computed from the cuts around it alone.
  lemma FieldIsCut(r: Record, k: nat)
    requires r.Ok() && k < r.Size()
    ensures Fields(r)[k] == FieldIn(r, k, Begin(r, Cut(r, k)), Cut(r, k + 1))
  {
    hide FieldIn, Next, Eager;
    EagerFromCut(r, 0, k);
  }

  lemma {:induction false} EagerFromCut(r: Record, j: nat, k: nat)
    requires r.Ok() && j <= k < r.Size()
    ensures Eager(r, j, Cut(r, j))[k - j] == FieldIn(r, k, Begin(r, Cut(r, k)), Cut(r, k + 1))
    decreases k - j
  {
    hide FieldIn, Next;
    if j < k {
      EagerFromCut(r, j + 1, k);
      assert Cut(r, j + 1) == Next(r, j, Cut(r, j));
    }
  }

  // ---------- fields in quotes ----------

  // A quoted field that does not begin with a quote is empty and stops where it began.
  lemma UnopenedField(r: Record, k: nat, p: nat)
    requires r.Ok() && k < r.Size() && r.layout.kinds[k].QStr? && p <= r.end
    requires var q := Begin(r, p); q == r.end || r.data[q] != QUOTE
    ensures Next(r, k, p) == Begin(r, p) && FieldIn(r, k, Begin(r, p), Next(r, k, p)) == Text([])
  {
    hide Begin, Quoted.QStr;
    UnopenedIsEmpty(r.data, Begin(r, p), r.end);
  }

  // A field in quotes whose closing quote is missing is empty and takes the rest of the record.
  lemma UnclosedField(r: Record, k: nat, p: nat, s: seq<byte>)
    requires r.Ok() && k < r.Size() && IsQuoted(r.layout.kinds[k]) && p <= r.end
    requires r.data[Begin(r, p)..r.end] == [QUOTE] + Doubled(s)
    ensures Next(r, k, p) == r.end && FieldIn(r, k, Begin(r, p), Next(r, k, p)) == Text([])
  {
    hide Begin, Quoted.QStr;
    var q := Begin(r, p);
    HoldsSplit(r.data, q, [QUOTE], Doubled(s));
    HoldsAt(r.data, q, [QUOTE], 0);
    UnclosedIsEmpty(r.data, q, r.end, s);
  }

  // A field in quotes that is followed by no quote is its text with the quotes undoubled.
  lemma ClosedField(r: Record, k: nat, p: nat, s: seq<byte>)
    requires r.Ok() && k < r.Size() && IsQuoted(r.layout.kinds[k]) && p <= r.end
    requires Holds(r.data, Begin(r, p), Enclosed(s))
    requires var e := Begin(r, p) + |Enclosed(s)|; e <= r.end && (e < r.end ==> r.data[e] != QUOTE)
    ensures Next(r, k, p) == Begin(r, p) + |Enclosed(s)|
    ensures FieldIn(r, k, Begin(r, p), Next(r, k, p)) == Text(s)
  {
    hide Begin, Quoted.QStr;
    var q := Begin(r, p);
    QuotedRoundTrip(r.data, q, r.end, s);
    HoldsAt(r.data, q, Enclosed(s), 0);
  }

  // A field that can be quoted and is not holds the text up to the next delimiter, NUL included.
  lemma OpenField(r: Record, k: nat, p: nat)
    requires r.Ok() && k < r.Size() && r.layout.kinds[k].OptQStr? && p <= r.end && r.data[Begin(r, p)] != QUOTE
    ensures var q, e := Begin(r, p), Next(r, k, p);
            && FieldIn(r, k, q, e) == Text(r.data[q..e])
            && r.layout.d !in r.data[q..e] && (e < r.end ==> r.data[e] == r.layout.d)
  {
    hide Begin, Quoted.QStr;
  }

  // Every other field stops at the next delimiter or NUL.
  lemma OtherField(r: Record, k: nat, p: nat)
    requires r.Ok() && p <= r.end && (k < r.Size() ==> !IsQuoted(r.layout.kinds[k]))
    ensures var q, e := Begin(r, p), Next(r, k, p);
            && (forall i :: q <= i < e ==> r.data[i] != r.layout.d && r.data[i] != 0)
            && (e < r.end ==> r.data[e] == r.layout.d || r.data[e] == 0)
            && (k < r.Size() && r.layout.kinds[k].Str? ==> FieldIn(r, k, q, e) == Text(r.data[q..e]))
  {
    hide Begin;
  }

  // ---------- records without quotes are split at the delimiter ----------

  // No quoted fields and no NUL bytes.
  ghost predicate Unquoted(r: Record)
    requires r.Ok()
  {
    && (forall k :: 0 <= k < r.Size() ==> !IsQuoted(r.layout.kinds[k]))
    && (forall i :: r.start <= i < r.end ==> r.data[i] != NUL)
  }

  // A plain field is the text up to the next delimiter.
  lemma PlainField(r: Record, k: nat, p: nat)
    requires r.Ok() && Unquoted(r) && r.start <= p <= r.end
    ensures var (q, e, d) := (Begin(r, p), Next(r, k, p), r.layout.d);
            && q <= e <= r.end && d !in r.data[q..e] && (e < r.end ==> r.data[e] == d) && Plain(r.data, d, q, e)
  {
    assert Next(r, k, p) == ReachDelim(r.data, r.layout.d, Begin(r, p), r.end);
  }

  // The pieces behind the first one.
  lemma PiecesTail(data: seq<byte>, d: byte, q: nat, e: nat, end: nat)
    requires q <= e <= end <= |data| && d !in data[q..e] && (e < end ==> data[e] == d)
    ensures var pieces := Split(data[q..end], d);
            && PieceAt(pieces, 0) == data[q..e]
            && forall i :: 0 < i ==>
                             PieceAt(pieces, i) == PieceAt(Split(data[ReachValue(data, d, e, end)..end], d), i - 1)
  {
    hide Split;
    SplitRest(data, d, q, e, end);
    if e == end {
      EmptySplit(data[end..end], d);
    }
  }

  // One delimiter between fields: the fields from k on are the pieces of the rest.
  lemma {:induction false} SingleFrom(r: Record, k: nat, j: nat)
    requires r.Ok() && Unquoted(r) && !r.layout.multi && k <= j
    ensures FieldText(r, j) == PieceAt(Split(r.data[Begin(r, Cut(r, k))..r.end], r.layout.d), j - k)
    decreases j - k
  {
    hide Split, Next, Unquoted, PieceAt, ReachValue, ReachValueM;
    CutsRise(r, 0, k);
    PlainField(r, k, Cut(r, k));
    PiecesTail(r.data, r.layout.d, Begin(r, Cut(r, k)), Cut(r, k + 1), r.end);
    if k < j {
      SingleFrom(r, k + 1, j);
    }
  }

  // A leading delimiter adds no nonempty piece.
  lemma {:induction false} SkipDelimiters(data: seq<byte>, d: byte, p: nat, end: nat)
    requires p <= end <= |data|
    ensures NonEmpty(Split(data[p..end], d)) == NonEmpty(Split(data[ReachValueM(data, d, p, end)..end], d))
    decreases end - p
  {
    if p < end && data[p] == d {
      SplitRest(data, d, p, p, end);
      assert data[p..p] == [];
      SkipDelimiters(data, d, p + 1, end);
      assert ([[]] + Split(data[p + 1..end], d))[1..] == Split(data[p + 1..end], d);
    }
  }

  // The nonempty pieces, one piece at a time.
  lemma NonEmptyRest(data: seq<byte>, d: byte, q: nat, e: nat, end: nat)
    requires q <= e <= end <= |data| && d !in data[q..e] && (e < end ==> data[e] == d)
    ensures NonEmpty(Split(data[q..end], d))
         == (if q < e then [data[q..e]] else []) + if e < end then NonEmpty(Split(data[e + 1..end], d)) else []
  {
    SplitRest(data, d, q, e, end);
    var pieces := Split(data[q..end], d);
    assert pieces[1..] == if e < end then Split(data[e + 1..end], d) else [];
  }

  // The first nonempty piece, or none.
  lemma MultiHead(data: seq<byte>, d: byte, p: nat, q: nat, e: nat, end: nat)
    requires p <= q <= e <= end <= |data| && q == ReachValueM(data, d, p, end)
    requires d !in data[q..e] && (e < end ==> data[e] == d)
    ensures var rest := NonEmpty(Split(data[e..end], d));
            NonEmpty(Split(data[p..end], d)) == if q < e then [data[q..e]] + rest else []
    ensures q == e ==> data[q..e] == [] && NonEmpty(Split(data[e..end], d)) == []
  {
    hide Split, NonEmpty;
    SkipDelimiters(data, d, p, end);
    NonEmptyRest(data, d, q, e, end);
    if e < end {
      NonEmptyRest(data, d, e, e, end);
    } else {
      EmptySplit(data[end..end], d);
    }
  }

  lemma BeginMulti(r: Record, p: nat)
    requires r.Ok() && p <= r.end && r.layout.multi
    ensures Begin(r, p) == ReachValueM(r.data, r.layout.d, p, r.end)
  {
  }

  lemma PieceTail(head: seq<seq<byte>>, rest: seq<seq<byte>>, i: nat)
    requires i > 0 && (|head| == 1 || head == rest == [])
    ensures PieceAt(head + rest, i) == PieceAt(rest, i - 1)
  {
  }

  lemma PieceHead(piece: seq<byte>, rest: seq<seq<byte>>)
    ensures PieceAt([piece] + rest, 0) == piece && PieceAt([], 0) == []
  {
  }

  // Runs of delimiters between fields: the fields from k on are the nonempty pieces of the rest.
  lemma {:induction false} MultiFrom(r: Record, k: nat, j: nat)
    requires r.Ok() && Unquoted(r) && r.layout.multi && k <= j
    ensures FieldText(r, j) == PieceAt(NonEmpty(Split(r.data[Cut(r, k)..r.end], r.layout.d)), j - k)
    decreases j - k
  {
    hide Split, Next, Begin, Unquoted, NonEmpty, ReachValue, ReachValueM, PieceAt;
    var p, q, e, d := Cut(r, k), Begin(r, Cut(r, k)), Cut(r, k + 1), r.layout.d;
    CutsRise(r, 0, k);
    PlainField(r, k, p);
    BeginMulti(r, p);
    MultiHead(r.data, d, p, q, e, r.end);
    var head, rest := if q < e then [r.data[q..e]] else [], NonEmpty(Split(r.data[e..r.end], d));
    assert NonEmpty(Split(r.data[p..r.end], d)) == head + rest;
    if k < j {
      MultiFrom(r, k + 1, j);
      PieceTail(head, rest, j - k);
    } else {
      PieceHead(r.data[q..e], rest);
    }
  }

  // The pieces of a record: with single delimiters, after one optional leading delimiter; otherwise the nonempty ones.
  function Pieces(r: Record): seq<seq<byte>>
    requires r.Ok()
  {
    var d := r.layout.d;
    if r.layout.multi then NonEmpty(Split(r.data[r.start..r.end], d))
    else if r.start < r.end && r.data[r.start] == d then Split(r.data[r.start + 1..r.end], d)
    else Split(r.data[r.start..r.end], d)
  }

  // The scan is splitting: field k has the text of piece k; a missing piece is empty.
  lemma FieldsAreSplit(r: Record, k: nat)
    requires r.Ok() && Unquoted(r)
    ensures FieldText(r, k) == PieceAt(Pieces(r), k)
  {
    hide Split, NonEmpty, FieldText, Next, Unquoted, PieceAt;
    if r.layout.multi {
      MultiFrom(r, 0, k);
    } else {
      SingleFrom(r, 0, k);
    }
  }

  // What a field means in terms of its text alone.
  function Meaning(k: Kind, text: seq<byte>, d: byte): Value {
    match k
    case Int => Integer(TextValue(text, d))
    case Array(ints, fd) => Items(Elements(Trimmed(Split(text, fd)), ArrayElem(ints), fd))
    case Dict(el, pd, fd) => Entries(DictMeaning(text, el, pd, fd, map[]))
    case _ => Text(text)
  }

  // Integers are told apart from the delimiters around them.
  predicate Separable(k: Kind, d: byte) {
    match k
    case Int => d != MINUS
    case Array(ints, fd) => ArraySeparable(ArrayElem(ints), fd, d)
    case Dict(el, pd, fd) => DictSeparable(el, pd, fd, d)
    case _ => true
  }

  // A field that is not in quotes means the text up to the delimiter.
  lemma FieldMeans(r: Record, k: nat, q: nat, e: nat)
    requires r.Ok() && k < r.Size() && q <= e <= r.end && Plain(r.data, r.layout.d, q, e)
    requires e < r.end ==> r.data[e] == r.layout.d
    requires var kind := r.layout.kinds[k];
             Separable(kind, r.layout.d) && !kind.QStr? && (kind.OptQStr? ==> r.data[q] != QUOTE)
    ensures FieldIn(r, k, q, e) == Meaning(r.layout.kinds[k], r.data[q..e], r.layout.d)
  {
    hide ArrayItems, Trimmed, Split, TextValue, DictEntries, DictMeaning, Elements, Quoted.QStr, IntStop;
    var d := r.layout.d;
    match r.layout.kinds[k]
    case Int => IntegerIsPiece(r.data, d, q, e, r.end);
    case Array(ints, fd) => ArrayIsSplit(r.data, d, ArrayElem(ints), fd, q, e, r.end);
    case Dict(el, pd, fd) => DictIsMeaning(r.data, d, el, pd, fd, q, e, r.end, map[]);
    case _ =>
  }

  // Every field means its piece.
  lemma PiecesMean(r: Record, k: nat)
    requires r.Ok() && Unquoted(r) && k < r.Size() && Separable(r.layout.kinds[k], r.layout.d)
    ensures Fields(r)[k] == Meaning(r.layout.kinds[k], PieceAt(Pieces(r), k), r.layout.d)
  {
    hide Unquoted, Next, Begin, Pieces, PieceAt, Meaning, FieldIn, Fields, Separable, Plain;
    CutsRise(r, 0, k);
    FieldsAreSplit(r, k);
    FieldIsCut(r, k);
    PlainField(r, k, Cut(r, k));
    NotQuoted(r, k);
    FieldMeans(r, k, Begin(r, Cut(r, k)), Cut(r, k + 1));
  }

  lemma NotQuoted(r: Record, k: nat)
    requires r.Ok() && Unquoted(r) && k < r.Size()
    ensures !IsQuoted(r.layout.kinds[k])
  {
  }

  // ---------- the delimiters for which fields mean their pieces ----------

  // A field of the kind always means its piece, in every record without quotes.
  ghost predicate AlwaysMeans(k: Kind, d: byte) {
    forall r: Record, j: nat ::
      r.Ok() && Unquoted(r) && r.layout.d == d && j < r.Size() && r.layout.kinds[j] == k ==>
        Fields(r)[j] == Meaning(k, PieceAt(Pieces(r), j), d)
  }

  // A record with one field.
  function Single(k: Kind, d: byte, text: seq<byte>): Record {
    Record(text + [NEWLINE], 0, |text|, Layout([k], d, false))
  }

  // The text of the only field, up to the first delimiter.
  ghost predicate OnlyField(text: seq<byte>, d: byte, q: nat, e: nat) {
    && |text| < FLAG && q <= e <= |text| && NUL !in text
    && q == (if text != [] && text[0] == d then 1 else 0) && d !in text[q..e] && (e < |text| ==> text[e] == d)
  }

  lemma SingleField(k: Kind, d: byte, text: seq<byte>, q: nat, e: nat)
    requires OnlyField(text, d, q, e) && !IsQuoted(k)
    ensures var r := Single(k, d, text);
            r.Ok() && Unquoted(r) && Fields(r)[0] == FieldIn(r, 0, q, e) && PieceAt(Pieces(r), 0) == text[q..e]
  {
    hide FieldIn, Pieces, PieceAt, ReachDelim;
    var r := Single(k, d, text);
    assert Unquoted(r);
    assert Begin(r, 0) == q;
    assert Cut(r, 0) == 0;
    forall i | q <= i < e ensures r.data[i] != d && r.data[i] != NUL {
      assert r.data[i] == text[q..e][i - q] == text[i];
    }
    StopIsAt(r.data, d, q, e, r.end);
    DelimiterIsAt(r.data, d, q, e, r.end);
    assert Cut(r, 1) == e;
    FieldIsCut(r, 0);
    FieldsAreSplit(r, 0);
    assert r.data[q..e] == text[q..e];
  }

  lemma NotAlways(k: Kind, d: byte, text: seq<byte>, q: nat, e: nat)
    requires OnlyField(text, d, q, e) && !IsQuoted(k)
    requires var r := Single(k, d, text); r.Ok() && FieldIn(r, 0, q, e) != Meaning(k, text[q..e], d)
    ensures !AlwaysMeans(k, d)
  {
    hide FieldIn, Meaning, Fields, Pieces, PieceAt, Unquoted;
    SingleField(k, d, text, q, e);
    var r := Single(k, d, text);
    assert r.layout.kinds[0] == k;
    assert Fields(r)[0] != Meaning(k, PieceAt(Pieces(r), 0), d);
  }

  // A digit other than zero and two given bytes.
  function OtherDigit(a: byte, b: byte): (g: byte)
    ensures IsDigit(g) && DigitValue(g) > 0 && g != a && g != b
  {
    if a != DIGIT0 + 1 && b != DIGIT0 + 1 then DIGIT0 + 1
    else if a != DIGIT0 + 2 && b != DIGIT0 + 2 then DIGIT0 + 2
    else DIGIT0 + 3
  }

  // With a minus sign as the delimiter an empty integer field takes its value from the field behind it.
  lemma MinusLeaks()
    ensures !AlwaysMeans(Int, MINUS)
  {
    var five: byte := DIGIT0 + 5;
    var text := [MINUS, MINUS, five];
    SmallNumbers(five, five, MINUS);
    assert (text + [NEWLINE])[1..3] == [MINUS, five];
    assert text[1..1] == [];
    NotAlways(Int, MINUS, text, 1, 1);
  }

  // In an array, an empty integer before a minus sign takes its value from the next one: "-5" begins with an empty
  // piece.
  lemma ArrayMinusLeaks(d: byte)
    requires d != MINUS
    ensures !AlwaysMeans(Array(true, MINUS), d)
  {
    hide ArrayItems, Elements, Trimmed, Split, TextValue;
    var g := OtherDigit(d, d);
    var text := [MINUS, g];
    var r := Single(Array(true, MINUS), d, text);
    FirstItem(r.data, MINUS, 0, 0, 2, 2);
    assert r.data[0..2] == text[0..2] == text;
    SmallNumbers(g, g, MINUS);
    SplitAt(text, MINUS, 0);
    assert text[..0] == [];
    FirstElement([], Split(text[1..], MINUS), MINUS);
    NotAlways(Array(true, MINUS), d, text, 0, 2);
  }

  // With a digit as the record delimiter, an integer at the end of an array runs on into the next field.
  lemma ArrayDigitLeaks(fd: byte, d: byte)
    requires IsDigit(d) && fd != d
    ensures !AlwaysMeans(Array(true, fd), d)
  {
    hide ArrayItems, Elements, Trimmed, Split, TextValue;
    var g := OtherDigit(d, fd);
    var text := [g, d];
    var r := Single(Array(true, fd), d, text);
    FirstItem(r.data, fd, 0, 1, 1, 2);
    assert r.data[0..2] == text;
    SmallNumbers(g, d, fd);
    assert text[0..1] == [g];
    SplitAt([g], fd, 1);
    assert [g][..1] == [g];
    var none: seq<seq<byte>> := [];
    assert [[g]] + none == [[g]];
    OnePiece([g]);
    ElementsTail([g], none, IntElem, fd);
    NotAlways(Array(true, fd), d, text, 0, 1);
  }

  lemma FirstItem(data: seq<byte>, fd: byte, i: nat, f: nat, e: nat, end: nat)
    requires i < e <= end < |data| && i <= f <= e && (f < e ==> data[f] == fd)
    requires forall k :: i <= k < f ==> data[k] != fd && data[k] != NUL
    ensures var items := ArrayItems(data, IntElem, fd, i, e, end);
            items != [] && items[0] == Integer(TextValue(data[i..end], fd))
  {
    DelimiterIsAt(data, fd, i, f, e);
  }

  lemma FirstElement(piece: seq<byte>, rest: seq<seq<byte>>, fd: byte)
    requires rest != []
    ensures var items := Elements(Trimmed([piece] + rest), IntElem, fd);
            items != [] && items[0] == Integer(TextValue(piece, fd))
  {
    TrimmedTail(piece, rest);
    ElementsTail(piece, Trimmed(rest), IntElem, fd);
  }

  // A dictionary of one entry whose value begins at v: the value is read from there on.
  lemma OneEntry(data: seq<byte>, pd: byte, fd: byte, kv: nat, v: nat, e: nat, end: nat)
    requires 0 < e <= end < |data| && kv <= v <= e && v > 0
    requires forall k :: 0 <= k < kv ==> data[k] != pd && data[k] != NUL
    requires if kv < e then data[kv] == pd && v == kv + 1 else v == e
    ensures var dict := DictEntries(data, IntElem, pd, fd, 0, e, end, map[]);
            data[..kv] in dict && dict[data[..kv]] == Integer(TextValue(data[v..end], fd))
  {
    hide ReachDelim, EntryNext, TextValue, IntStop;
    DelimiterIsAt(data, pd, 0, kv, e);
    assert data[0..kv] == data[..kv];
    var acc := map[data[..kv] := Integer(TextValue(data[v..end], fd))];
    var next := EntryNext(data, fd, IntStop(data, v, end, fd), e);
    assert DictEntries(data, IntElem, pd, fd, 0, e, end, map[])
        == DictEntries(data, IntElem, pd, fd, next, e, end, acc);
  }

  // In the text, the value of the first entry is empty.
  lemma EmptyValue(s: seq<byte>, pd: byte, fd: byte, kv: nat)
    requires s != [] && kv <= |s| && pd !in s[..kv]
    requires kv < |s| ==> s[kv] == pd && (kv + 1 < |s| ==> s[kv + 1] == fd)
    ensures var dict := DictMeaning(s, IntElem, pd, fd, map[]);
            s[..kv] in dict && dict[s[..kv]] == Integer(0)
  {
    StopIsAt(s, pd, 0, kv, |s|);
    var t := After(s, pd);
    StopIsAt(t, fd, 0, 0, |t|);
    assert Before(t, fd) == [];
    var key, rest := s[..kv], FirstValue(t, IntElem, fd).1;
    assert FirstValue(t, IntElem, fd).0 == Integer(0);
    DictUnfoldText(s, IntElem, pd, fd, map[]);
    assert DictMeaning(s, IntElem, pd, fd, map[]) == DictMeaning(rest, IntElem, pd, fd, map[key := Integer(0)]);
    MeaningKeeps(rest, IntElem, pd, fd, map[key := Integer(0)], key);
  }

  // An entry without a value at the end of a dictionary takes its value from the next field when the record delimiter
  // is a minus sign or a digit that does not end the entry.
  lemma DictEndLeaks(pd: byte, fd: byte, d: byte)
    requires d == MINUS || (IsDigit(d) && fd != d)
    ensures !AlwaysMeans(Dict(IntElem, pd, fd), d)
  {
    hide DictEntries, DictMeaning, TextValue;
    var k := Dict(IntElem, pd, fd);
    var g := OtherDigit(fd, fd);
    var key: byte := if pd != 1 then 1 else 2;
    var text := [key, d, g];
    var r := Single(k, d, text);
    assert text[0..1] == [key] && r.data[1..3] == [d, g] && r.data[..1] == [key] && [key][..1] == [key];
    OneEntry(r.data, pd, fd, 1, 1, 1, 3);
    EmptyValue([key], pd, fd, 1);
    if d == MINUS {
      SmallNumbers(g, g, fd);
    } else {
      SmallNumbers(d, g, fd);
    }
    NotAlways(k, d, text, 0, 1);
  }

  // An empty value before a minus sign takes its value from the next entry.
  lemma DictMinusLeaks(pd: byte, d: byte)
    requires d != MINUS && pd != d && pd != NUL
    ensures !AlwaysMeans(Dict(IntElem, pd, MINUS), d)
  {
    hide DictEntries, DictMeaning, TextValue;
    var k := Dict(IntElem, pd, MINUS);
    var g := OtherDigit(d, d);
    var text := [pd, MINUS, g];
    var r := Single(k, d, text);
    assert text[0..3] == text && r.data[1..3] == [MINUS, g] && r.data[..0] == [] && text[..0] == [];
    OneEntry(r.data, pd, MINUS, 0, 1, 3, 3);
    EmptyValue(text, pd, MINUS, 0);
    SmallNumbers(g, g, MINUS);
    NotAlways(k, d, text, 0, 3);
  }

  // The kinds and delimiters for which fields always mean their pieces.
  lemma AlwaysMeansExactly(k: Kind, d: byte)
    requires !IsQuoted(k)
    ensures AlwaysMeans(k, d) <==> Separable(k, d)
  {
    hide Meaning, Pieces, PieceAt, Unquoted, Next, Begin, Fields;
    if Separable(k, d) {
      forall r: Record, j: nat | r.Ok() && Unquoted(r) && r.layout.d == d && j < r.Size() && r.layout.kinds[j] == k
        ensures Fields(r)[j] == Meaning(k, PieceAt(Pieces(r), j), d)
      {
        PiecesMean(r, j);
      }
    } else {
      hide AlwaysMeans;
      match k
      case Int => MinusLeaks();
      case Array(_, fd) =>
        if IsDigit(d) {
          ArrayDigitLeaks(fd, d);
        } else {
          ArrayMinusLeaks(d);
        }
      case Dict(_, pd, fd) =>
        if d == MINUS || (IsDigit(d) && fd != d) {
          DictEndLeaks(pd, fd, d);
        } else {
          DictMinusLeaks(pd, d);
        }
    }
  }
}
