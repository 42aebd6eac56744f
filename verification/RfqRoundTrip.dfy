/**
 * What the segmented RFQ parser guarantees: numbering and disjointness on every input, a round trip on printed rows.
 */
module RfqRoundTrip {
  import opened Text
  import opened VerticalTokens
  import opened RfqTable

  // ----- one segment -----

  /**
   * A segment as a wrapped row prints: description lines, code fragments, quantity, unit, and lines of the next
   * heading.
   */
  datatype Wrapped = Wrapped(description: seq<string>, code: seq<string>, qty: string, unit: string,
      trailer: seq<string>)
  {
    function Tokens(): seq<string> { description + code + [qty, unit] + trailer }

    /** The code fragments chain up to the description, and no later unit follows an amount. */
    ghost predicate Readable() {
      && description != [] && code != [] && IsAmount(qty) && IsUnit(unit)
      && !Continues(description[|description| - 1], code[0])
      && (forall i :: 0 <= i < |code| - 1 ==> Continues(code[i], code[i + 1]))
      && (forall i :: 0 < i < |trailer| ==> !(IsUnit(trailer[i]) && IsAmount(trailer[i - 1])))
    }

    function Row(no: string): Item
      requires code != []
    {
      Item(no, Join(description, " "), JoinCode(code), qty, unit)
    }
  }

  lemma {:induction false} LastUnitAt(segment: seq<string>, at: nat, i: nat)
    requires at <= i < |segment| && IsQtyUnit(segment, at)
    requires forall k :: at < k <= i ==> !IsQtyUnit(segment, k)
    ensures LastUnit(segment, i) == at
  {
    if at < i { LastUnitAt(segment, at, i - 1); }
  }

  lemma {:induction false} CodeStartAt(segment: seq<string>, at: nat, c: nat)
    requires at <= c < |segment|
    requires forall k :: at <= k < c ==> Continues(segment[k], segment[k + 1])
    requires at > 0 && !Continues(segment[at - 1], segment[at])
    ensures CodeStart(segment, c) == at
  {
    if at < c { CodeStartAt(segment, at, c - 1); }
  }

  /** Every readable wrapped row is read back as printed. */
  lemma ParseComplete(no: string, w: Wrapped)
    requires w.Readable()
    ensures ParseSegment(no, w.Tokens()) == Some(w.Row(no))
  {
    hide IsAmount, IsUnit, Continues, Join, JoinCode, LastUnit, CodeStart;
    var segment, d, q := w.Tokens(), |w.description|, |w.description| + |w.code|;
    assert segment[..d] == w.description && segment[d..q] == w.code;
    assert segment[q] == w.qty && segment[q + 1] == w.unit;
    forall k | q + 1 < k < |segment| ensures !IsQtyUnit(segment, k) {
      UnitIsNotAmount(w.unit);
      assert segment[k] == w.trailer[k - q - 2];
      if k > q + 2 { assert segment[k - 1] == w.trailer[k - q - 3]; }
    }
    LastUnitAt(segment, q + 1, |segment| - 1);
    forall k | d <= k < q - 1 ensures Continues(segment[k], segment[k + 1]) {
      assert segment[k] == w.code[k - d] && segment[k + 1] == w.code[k - d + 1];
    }
    assert segment[d - 1] == w.description[d - 1] && segment[d] == w.code[0];
    CodeStartAt(segment, d, q - 1);
  }

  lemma {:induction false} CodeStartChain(segment: seq<string>, c: nat)
    requires c < |segment|
    ensures var at := CodeStart(segment, c);
      && (forall k :: at <= k < c ==> Continues(segment[k], segment[k + 1]))
      && (at > 0 ==> !Continues(segment[at - 1], segment[at]))
  {
    hide Continues;
    if c > 0 && Continues(segment[c - 1], segment[c]) { CodeStartChain(segment, c - 1); }
  }

  /** Only readable wrapped rows are read: the reading names the one way the segment splits. */
  lemma ParseSound(no: string, segment: seq<string>) returns (w: Wrapped)
    requires ParseSegment(no, segment).Some?
    ensures w.Readable() && w.Tokens() == segment && ParseSegment(no, segment) == Some(w.Row(no))
  {
    hide IsAmount, IsUnit, Continues, Join, JoinCode;
    var u := LastUnit(segment, |segment| - 1);
    var q := u - 1;
    var c := CodeStart(segment, q - 1);
    CodeStartChain(segment, q - 1);
    w := Wrapped(segment[..c], segment[c..q], segment[q], segment[u], segment[u + 1..]);
    assert segment == segment[..c] + segment[c..q] + [segment[q], segment[u]] + segment[u + 1..];
    forall i | 0 < i < |w.trailer| ensures !(IsUnit(w.trailer[i]) && IsAmount(w.trailer[i - 1])) {
      assert !IsQtyUnit(segment, u + 1 + i);
    }
    forall i | 0 <= i < |w.code| - 1 ensures Continues(w.code[i], w.code[i + 1]) {
      assert w.code[i] == segment[c + i] && w.code[i + 1] == segment[c + i + 1];
    }
  }

  // ----- every token list -----

  /** `f` is item `no`, read from a range that begins at or after `from`. */
  ghost predicate ReadAs(tokens: seq<string>, f: Found, from: nat, no: nat) {
    && f.item.no == Decimal(no)
    && from <= f.start < f.end <= |tokens| && tokens[f.start] == Decimal(no)
    && Some(f.item) == ParseSegment(Decimal(no), tokens[f.start + 1..f.end])
  }

  /** Where item `k` may begin: where the one before it ended. */
  function Bound(found: seq<Found>, from: nat, k: nat): nat
    requires k <= |found|
  {
    if k == 0 then from else found[k - 1].end
  }

  /**
   * `found` are items `no`, `no + 1`, ... read from disjoint token ranges, left to right, starting at or after `from`.
   */
  ghost predicate Numbered(tokens: seq<string>, found: seq<Found>, from: nat, no: nat) {
    forall k :: 0 <= k < |found| ==> ReadAs(tokens, found[k], Bound(found, from, k), no + k)
  }

  lemma NumberedCons(tokens: seq<string>, f: Found, rest: seq<Found>, from: nat, no: nat)
    requires ReadAs(tokens, f, from, no)
    requires Numbered(tokens, rest, f.end, no + 1)
    ensures Numbered(tokens, [f] + rest, from, no)
  {
    hide ReadAs;
    var found := [f] + rest;
    forall k | 0 <= k < |found|
      ensures ReadAs(tokens, found[k], Bound(found, from, k), no + k)
    {
      if k > 0 {
        assert ReadAs(tokens, rest[k - 1], Bound(rest, f.end, k - 1), no + 1 + (k - 1));
        assert no + 1 + (k - 1) == no + k;
      }
    }
  }

  /** The items come out numbered 1, 2, ..., n from disjoint increasing token segments. */
  lemma {:induction false} ExtractNumbers(tokens: seq<string>, from: nat, no: nat)
    ensures Numbered(tokens, Extract(tokens, from, no), from, no)
    decreases |tokens| - from
  {
    hide ParseSegment, Decimal, IsAmount, IsUnit, Continues, Numbered;
    var start := FindFrom(tokens, Decimal(no), from);
    if start < 0 {
      NumberedNil(tokens, from, no);
    } else {
      var at := ItemAt(tokens, Decimal(no), Decimal(no + 1), start);
      if at == None {
        ExtractNumbers(tokens, start + 1, no);
        NumberedLater(tokens, Extract(tokens, start + 1, no), start + 1, from, no);
      } else {
        ExtractNumbers(tokens, at.value.end, no + 1);
        ParseKeepsNumber(Decimal(no), tokens[start + 1..at.value.end]);
        NumberedCons(tokens, at.value, Extract(tokens, at.value.end, no + 1), from, no);
      }
    }
  }

  lemma NumberedNil(tokens: seq<string>, from: nat, no: nat)
    ensures Numbered(tokens, [], from, no)
  {
  }

  lemma NumberedLater(tokens: seq<string>, found: seq<Found>, later: nat, from: nat, no: nat)
    requires from <= later && Numbered(tokens, found, later, no)
    ensures Numbered(tokens, found, from, no)
  {
    hide Decimal, ParseSegment;
    forall k | 0 <= k < |found|
      ensures ReadAs(tokens, found[k], Bound(found, from, k), no + k)
    {
      assert ReadAs(tokens, found[k], Bound(found, later, k), no + k);
    }
  }

  lemma ParseKeepsNumber(no: string, segment: seq<string>)
    ensures ParseSegment(no, segment).Some? ==> ParseSegment(no, segment).value.no == no
  {
  }

  // ----- the expected count -----

  /** The numbers read back from the extracted items, `int(item["No"])` for the all-digit ones. */
  function Numbers(items: seq<Item>): seq<nat> {
    if items == [] then []
    else (if IsNumber(items[0].no) then [Value(items[0].no)] else []) + Numbers(items[1..])
  }

  lemma {:induction false} NumbersOfNumbered(items: seq<Item>, no: nat)
    requires forall k :: 0 <= k < |items| ==> items[k].no == Decimal(no + k)
    ensures Max(Numbers(items)) == if items == [] then 0 else no + |items| - 1
  {
    if items != [] {
      assert items[0].no == Decimal(no + 0);
      ValueOfDecimal(no);
      forall k | 0 <= k < |items[1..]| ensures items[1..][k].no == Decimal(no + 1 + k) {
        assert items[1..][k] == items[k + 1];
        assert no + 1 + k == no + (k + 1);
      }
      NumbersOfNumbered(items[1..], no + 1);
      assert Numbers(items) == [no] + Numbers(items[1..]);
      assert ([no] + Numbers(items[1..]))[1..] == Numbers(items[1..]);
    }
  }

  /** The extracted items are numbered 1..n, in order. */
  lemma ItemsNumbered(tokens: seq<string>)
    ensures forall k :: 0 <= k < |SegmentedItems(tokens)| ==> SegmentedItems(tokens)[k].no == Decimal(1 + k)
  {
    hide Decimal, ParseSegment, Extract;
    ExtractNumbers(tokens, 0, 1);
    var found := Extract(tokens, 0, 1);
    forall k | 0 <= k < |found| ensures found[k].item.no == Decimal(1 + k) {
      assert ReadAs(tokens, found[k], Bound(found, 0, k), 1 + k);
    }
  }

  /**
   * With no horizontal table contributing numbers, the expected count is the number of extracted items,
   * so keeping those items as the line items never raises the missing-line-items warning.
   */
  lemma ExpectedCountIsItemCount(tokens: seq<string>)
    ensures var items := SegmentedItems(tokens);
      Max(Numbers(items)) == |items| && !LineItemsMissing(Max(Numbers(items)), |items|)
  {
    hide Decimal, Extract, Numbers, Max;
    ItemsNumbered(tokens);
    NumbersOfNumbered(SegmentedItems(tokens), 1);
  }

  // ----- round trip -----

  datatype Row = Row(description: string, code: string, qty: string, unit: string)

  /** Rows printed one token a line, numbered from `no`. */
  function Flatten(rows: seq<Row>, no: nat): seq<string> {
    if rows == [] then []
    else [Decimal(no), rows[0].description, rows[0].code, rows[0].qty, rows[0].unit] + Flatten(rows[1..], no + 1)
  }

  /** The items the rows should come back as. */
  function Numbering(rows: seq<Row>, no: nat): (r: seq<Item>)
    ensures |r| == |rows|
  {
    seq(|rows|, i requires 0 <= i < |rows| =>
      Item(Decimal(no + i), rows[i].description, rows[i].code, rows[i].qty, rows[i].unit))
  }

  /** A row whose cells the parser can tell apart. */
  predicate Printable(row: Row, no: nat) {
    && IsAmount(row.qty) && IsUnit(row.unit)
    && !Continues(row.description, row.code)
    && row.description != Decimal(no) && row.description != row.code && row.code != row.qty
  }

  predicate PrintableRows(rows: seq<Row>, no: nat) {
    forall k :: 0 <= k < |rows| ==> Printable(rows[k], no + k)
  }

  /** The last row holds the number that would come after it. */
  predicate Clash(rows: seq<Row>, no: nat)
    requires rows != []
  {
    var last, after := rows[|rows| - 1], Decimal(no + |rows|);
    after == last.description || after == last.code || after == last.qty
  }

  lemma {:induction false} FlattenAt(rows: seq<Row>, no: nat, j: nat)
    requires j < |rows|
    ensures |Flatten(rows, no)| == 5 * |rows|
    ensures Flatten(rows, no)[5 * j..5 * j + 5]
         == [Decimal(no + j), rows[j].description, rows[j].code, rows[j].qty, rows[j].unit]
  {
    hide Decimal;
    FlattenLength(rows, no);
    FlattenLength(rows[1..], no + 1);
    var f := Flatten(rows, no);
    var head := [Decimal(no), rows[0].description, rows[0].code, rows[0].qty, rows[0].unit];
    assert f == head + Flatten(rows[1..], no + 1);
    if j > 0 {
      FlattenAt(rows[1..], no + 1, j - 1);
      assert no + 1 + (j - 1) == no + j;
      SliceBehind(head, Flatten(rows[1..], no + 1), 5 * (j - 1), 5 * (j - 1) + 5);
    }
  }

  lemma SliceBehind(head: seq<string>, rest: seq<string>, a: nat, b: nat)
    requires a <= b <= |rest|
    ensures (head + rest)[|head| + a..|head| + b] == rest[a..b]
  {
  }

  lemma {:induction false} FlattenLength(rows: seq<Row>, no: nat)
    ensures |Flatten(rows, no)| == 5 * |rows|
  {
    hide Decimal;
    if rows != [] { FlattenLength(rows[1..], no + 1); }
  }

  /** Printable rows have no equal neighbours, so de-duplication leaves the printed tokens alone. */
  lemma {:induction false} DedupeKeepsRows(rows: seq<Row>, no: nat)
    requires PrintableRows(rows, no)
    ensures Dedupe(Flatten(rows, no)) == Flatten(rows, no)
  {
    hide Decimal, IsAmount, IsUnit, Continues, Dedupe;
    if rows != [] {
      var r := rows[0];
      assert Printable(rows[0], no + 0);
      forall k | 0 <= k < |rows[1..]| ensures Printable(rows[1..][k], no + 1 + k) {
        assert Printable(rows[k + 1], no + (k + 1));
        assert no + 1 + k == no + (k + 1);
      }
      DedupeKeepsRows(rows[1..], no + 1);
      var rest := Flatten(rows[1..], no + 1);
      UnitIsNotAmount(r.unit);
      if rest != [] {
        NumberIsAmount(Decimal(no + 1));
        assert rest[0] == Decimal(no + 1);
      }
      DedupeFixes(rest);
      var f := Flatten(rows, no);
      assert f == [Decimal(no), r.description, r.code, r.qty, r.unit] + rest;
      forall i | 0 <= i < |f| - 1 ensures f[i] != f[i + 1] {
        if i > 4 { assert f[i] == rest[i - 5] && f[i + 1] == rest[i - 4]; }
      }
    }
    DedupeFixes(Flatten(rows, no));
  }

  lemma ParseRow(no: string, row: Row)
    requires IsAmount(row.qty) && IsUnit(row.unit) && !Continues(row.description, row.code)
    ensures ParseSegment(no, [row.description, row.code, row.qty, row.unit])
         == Some(Item(no, row.description, row.code, row.qty, row.unit))
  {
    var segment := [row.description, row.code, row.qty, row.unit];
    assert LastUnit(segment, 3) == 3;
    assert CodeStart(segment, 1) == 1;
    assert segment[..1] == [row.description] && segment[1..2] == [row.code];
  }

  /** No item fits in fewer than five tokens. */
  lemma ShortItem(tokens: seq<string>, no: string, next: string, start: nat)
    requires start < |tokens| <= start + 4
    ensures ItemAt(tokens, no, next, start) == None
  {
    hide LastUnit, CodeStart, JoinCode, Join;
    ShortCandidates(tokens, no, next, start, start + 1, |tokens|);
  }

  lemma {:induction false} ShortTail(tokens: seq<string>, from: nat, no: nat)
    requires |tokens| - from <= 4
    ensures Extract(tokens, from, no) == []
    decreases |tokens| - from
  {
    hide Decimal, ItemAt, FindFrom;
    var start := FindFrom(tokens, Decimal(no), from);
    if start >= 0 {
      ShortItem(tokens, Decimal(no), Decimal(no + 1), start);
      ShortTail(tokens, start + 1, no);
    }
  }

  lemma {:induction false} ShortCandidates(tokens: seq<string>, no: string, next: string, start: nat, i: nat, stop: nat)
    requires start < i <= stop <= |tokens| && stop - start <= 4
    ensures FirstParse(tokens, no, next, start, i) == FirstParse(tokens, no, next, start, stop)
    decreases stop - i
  {
    hide Decimal, IsAmount, IsUnit, LastUnit, CodeStart, JoinCode;
    if i < stop { ShortCandidates(tokens, no, next, start, i + 1, stop); }
  }

  /** The five tokens of row `j`, and the number that follows them. */
  lemma RowTokens(rows: seq<Row>, no: nat, j: nat)
    requires j < |rows|
    ensures var tokens, s := Flatten(rows, no), 5 * j;
      && |tokens| == 5 * |rows| && s + 5 <= |tokens|
      && tokens[s] == Decimal(no + j) && tokens[s + 1] == rows[j].description && tokens[s + 2] == rows[j].code
      && tokens[s + 3] == rows[j].qty && tokens[s + 4] == rows[j].unit
      && tokens[s + 1..s + 5] == [rows[j].description, rows[j].code, rows[j].qty, rows[j].unit]
      && (j + 1 < |rows| ==> s + 5 < |tokens| && tokens[s + 5] == Decimal(no + j + 1))
  {
    hide Flatten, Decimal;
    var tokens, s, row := Flatten(rows, no), 5 * j, rows[j];
    FlattenAt(rows, no, j);
    var five := tokens[s..s + 5];
    assert five == [Decimal(no + j), row.description, row.code, row.qty, row.unit];
    assert tokens[s] == five[0] && tokens[s + 1] == five[1] && tokens[s + 2] == five[2] && tokens[s + 3] == five[3]
      && tokens[s + 4] == five[4];
    if j + 1 < |rows| {
      FlattenAt(rows, no, j + 1);
      assert tokens[s + 5] == tokens[5 * (j + 1)..5 * (j + 1) + 5][0];
      assert no + (j + 1) == no + j + 1;
    }
  }

  /** Four cells between two numbers: the item ends at the second one, however many cells equal it. */
  lemma ReadMiddle(tokens: seq<string>, no: string, next: string, s: nat, row: Row)
    requires s + 5 < |tokens| && tokens[s + 5] == next
    requires tokens[s + 1..s + 5] == [row.description, row.code, row.qty, row.unit]
    requires IsAmount(row.qty) && IsUnit(row.unit) && !Continues(row.description, row.code) && row.unit != next
    ensures ItemAt(tokens, no, next, s) == Some(Found(Item(no, row.description, row.code, row.qty, row.unit), s, s + 5))
  {
    ParseRow(no, row);
    hide ParseSegment, IsAmount, IsUnit, Continues;
    assert tokens[s + 4] == tokens[s + 1..s + 5][3];
    ShortCandidates(tokens, no, next, s, s + 1, s + 4);
    ShortFour(tokens, no, next, s);
  }

  /** Four cells at the end: they are read, unless one of them equals the number after the last. */
  lemma ReadLast(tokens: seq<string>, no: string, next: string, s: nat, row: Row)
    requires s + 5 == |tokens|
    requires tokens[s + 1..] == [row.description, row.code, row.qty, row.unit]
    requires IsAmount(row.qty) && IsUnit(row.unit) && !Continues(row.description, row.code) && row.unit != next
    ensures ItemAt(tokens, no, next, s)
         == if next == row.description || next == row.code || next == row.qty then None
            else Some(Found(Item(no, row.description, row.code, row.qty, row.unit), s, s + 5))
  {
    ParseRow(no, row);
    hide ParseSegment, IsAmount, IsUnit, Continues;
    var cells := tokens[s + 1..];
    assert tokens[s + 1] == cells[0] && tokens[s + 2] == cells[1] && tokens[s + 3] == cells[2]
      && tokens[s + 4] == cells[3];
    ShortCandidates(tokens, no, next, s, s + 1, s + 4);
    ShortFour(tokens, no, next, s);
  }

  /** Row `j` is read back from its five tokens unless it is the last one and clashes. */
  lemma ReadRow(rows: seq<Row>, no: nat, j: nat)
    requires j < |rows| && PrintableRows(rows, no)
    ensures var tokens := Flatten(rows, no);
      && |tokens| == 5 * |rows|
      && FindFrom(tokens, Decimal(no + j), 5 * j) == 5 * j
      && ItemAt(tokens, Decimal(no + j), Decimal(no + j + 1), 5 * j)
         == if j + 1 == |rows| && Clash(rows, no) then None
            else Some(Found(Numbering(rows, no)[j], 5 * j, 5 * j + 5))
  {
    hide Decimal, IsAmount, IsUnit, Continues, Flatten, ItemAt;
    var tokens, row, next := Flatten(rows, no), rows[j], Decimal(no + j + 1);
    RowTokens(rows, no, j);
    assert Printable(rows[j], no + j);
    NumberIsAmount(next);
    UnitIsNotAmount(row.unit);
    if j + 1 < |rows| {
      ReadMiddle(tokens, Decimal(no + j), next, 5 * j, row);
    } else {
      assert tokens[5 * j + 1..] == tokens[5 * j + 1..5 * j + 5];
      ReadLast(tokens, Decimal(no + j), next, 5 * j, row);
    }
  }

  lemma ShortFour(tokens: seq<string>, no: string, next: string, s: nat)
    requires s + 4 < |tokens| && tokens[s + 4] != next
    ensures FirstParse(tokens, no, next, s, s + 4) == FirstParse(tokens, no, next, s, s + 5)
  {
    hide ParseSegment;
  }

  /** The printed rows with the token ranges they occupy. */
  function Placed(rows: seq<Row>, no: nat): (r: seq<Found>)
    ensures |r| == |rows|
  {
    seq(|rows|, i requires 0 <= i < |rows| => Found(Numbering(rows, no)[i], 5 * i, 5 * i + 5))
  }

  /** How many of the rows survive. */
  function Kept(rows: seq<Row>, no: nat): (r: nat)
    requires rows != []
    ensures r <= |rows|
  {
    if Clash(rows, no) then |rows| - 1 else |rows|
  }

  /** One turn of the extraction loop on printed rows. */
  lemma ExtractRow(rows: seq<Row>, no: nat, j: nat)
    requires j < |rows| && PrintableRows(rows, no)
    ensures var tokens := Flatten(rows, no);
      Extract(tokens, 5 * j, no + j)
      == if j == Kept(rows, no) then Extract(tokens, 5 * j + 1, no + j)
         else [Placed(rows, no)[j]] + Extract(tokens, 5 * (j + 1), no + (j + 1))
  {
    hide ParseSegment, Decimal, IsAmount, IsUnit, Continues, Flatten, Clash, Printable, Numbering, ItemAt, FindFrom;
    ReadRow(rows, no, j);
    assert no + j + 1 == no + (j + 1);
  }

  /** From row `j` on, extraction returns the remaining rows that survive. */
  lemma {:induction false} ReadRows(rows: seq<Row>, no: nat, j: nat)
    requires rows != [] && j <= Kept(rows, no) && PrintableRows(rows, no)
    ensures Extract(Flatten(rows, no), 5 * j, no + j) == Placed(rows, no)[j..Kept(rows, no)]
    decreases |rows| - j
  {
    hide Extract, Flatten, Clash, Printable, Placed;
    var tokens := Flatten(rows, no);
    FlattenLength(rows, no);
    if j == |rows| {
      ShortTail(tokens, 5 * j, no + j);
    } else {
      ExtractRow(rows, no, j);
      if j == Kept(rows, no) {
        ShortTail(tokens, 5 * j + 1, no + j);
      } else {
        ReadRows(rows, no, j + 1);
      }
    }
  }

  /**
   * Printing printable rows numbered from 1, de-duplicating and extracting gives back exactly the rows, unless a cell
   * of the last row is the text of n + 1; then the last row, and nothing else, is lost.
   */
  lemma RoundTrip(rows: seq<Row>)
    requires rows != [] && PrintableRows(rows, 1)
    ensures var extracted := SegmentedItems(Dedupe(Flatten(rows, 1)));
      && extracted == Numbering(rows, 1)[..Kept(rows, 1)]
      && (extracted == Numbering(rows, 1) <==> !Clash(rows, 1))
  {
    hide ParseSegment, Decimal, IsAmount, IsUnit, Continues, Flatten, Clash, Printable;
    DedupeKeepsRows(rows, 1);
    ReadRows(rows, 1, 0);
  }

  // ----- and conversely -----

  lemma ItemTakesFive(tokens: seq<string>, f: Found, from: nat, no: nat)
    requires ReadAs(tokens, f, from, no)
    ensures from <= f.start && f.start + 5 <= f.end <= |tokens|
  {
    hide Decimal, LastUnit, CodeStart, JoinCode, Join;
    assert |tokens[f.start + 1..f.end]| >= 4;
  }

  /** Items of disjoint ranges take five tokens each, counted from the left and from the right. */
  lemma {:induction false} Spread(tokens: seq<string>, found: seq<Found>, from: nat, no: nat, k: nat)
    requires Numbered(tokens, found, from, no) && k < |found|
    ensures found[k].start >= from + 5 * k && found[k].start + 5 <= found[k].end <= |tokens|
  {
    hide ReadAs;
    assert ReadAs(tokens, found[k], Bound(found, from, k), no + k);
    ItemTakesFive(tokens, found[k], Bound(found, from, k), no + k);
    if k > 0 { Spread(tokens, found, from, no, k - 1); }
  }

  lemma {:induction false} SpreadBack(tokens: seq<string>, found: seq<Found>, from: nat, no: nat, k: nat)
    requires Numbered(tokens, found, from, no) && k < |found|
    ensures found[k].end + 5 * (|found| - 1 - k) <= |tokens|
    decreases |found| - k
  {
    hide ReadAs;
    Spread(tokens, found, from, no, k);
    if k + 1 < |found| {
      SpreadBack(tokens, found, from, no, k + 1);
      Spread(tokens, found, from, no, k + 1);
      assert ReadAs(tokens, found[k + 1], Bound(found, from, k + 1), no + (k + 1));
      ItemTakesFive(tokens, found[k + 1], Bound(found, from, k + 1), no + (k + 1));
    }
  }

  lemma {:induction false} DedupeOfSameLength(values: seq<string>)
    requires |Dedupe(values)| == |values|
    ensures Dedupe(values) == values
  {
    if |values| > 1 {
      DedupeShrinks(values[1..]);
      DedupeOfSameLength(values[1..]);
    }
  }

  /** Four tokens ending in an amount and a unit parse only if the description does not run into the code. */
  lemma {:induction false} ParseFour(no: string, row: Row)
    requires IsAmount(row.qty) && IsUnit(row.unit)
    ensures ParseSegment(no, [row.description, row.code, row.qty, row.unit]).Some?
      ==> !Continues(row.description, row.code)
  {
    hide IsAmount, IsUnit, Continues, JoinCode, Join;
    var segment := [row.description, row.code, row.qty, row.unit];
    assert IsQtyUnit(segment, 3);
    assert LastUnit(segment, 3) == 3;
    assert CodeStart(segment, 0) == 0;
  }

  ghost predicate AmountsAndUnits(rows: seq<Row>) {
    forall k :: 0 <= k < |rows| ==> IsAmount(rows[k].qty) && IsUnit(rows[k].unit)
  }

  lemma FoundInPlace(tokens: seq<string>, found: seq<Found>, k: nat)
    requires Numbered(tokens, found, 0, 1) && k < |found| && |tokens| == 5 * |found|
    ensures 5 * k + 5 <= |tokens| && ParseSegment(Decimal(1 + k), tokens[5 * k + 1..5 * k + 5]).Some?
  {
    hide *;
    var f := found[k];
    NumberedAt(tokens, found, 0, 1, k);
    RangeParses(tokens, f, Bound(found, 0, k), 1 + k);
    Spread(tokens, found, 0, 1, k);
    SpreadBack(tokens, found, 0, 1, k);
    assert f.start == 5 * k && f.end == 5 * k + 5;
  }

  lemma NumberedAt(tokens: seq<string>, found: seq<Found>, from: nat, no: nat, k: nat)
    requires Numbered(tokens, found, from, no) && k < |found|
    ensures ReadAs(tokens, found[k], Bound(found, from, k), no + k)
  {
    hide ReadAs, Bound;
  }

  lemma RangeParses(tokens: seq<string>, f: Found, from: nat, no: nat)
    requires ReadAs(tokens, f, from, no)
    ensures f.start < f.end <= |tokens| && ParseSegment(Decimal(no), tokens[f.start + 1..f.end]).Some?
  {
    hide ParseSegment, Decimal;
  }

  /** As many items as rows: then every row was read from its own five tokens. */
  lemma {:induction false} ReadInPlace(rows: seq<Row>)
    requires rows != [] && |SegmentedItems(Dedupe(Flatten(rows, 1)))| == |rows|
    ensures Dedupe(Flatten(rows, 1)) == Flatten(rows, 1) && |Flatten(rows, 1)| == 5 * |rows|
    ensures forall k :: 0 <= k < |rows| ==> ParseSegment(Decimal(1 + k), Flatten(rows, 1)[5 * k + 1..5 * k + 5]).Some?
  {
    var flat := Flatten(rows, 1);
    var tokens, n := Dedupe(flat), |rows|;
    FlattenLength(rows, 1);
    DedupeShrinks(flat);
    ExtractNumbers(tokens, 0, 1);
    var found := Extract(tokens, 0, 1);
    assert |found| == n;
    hide *;
    Spread(tokens, found, 0, 1, n - 1);
    assert |tokens| == 5 * n;
    DedupeOfSameLength(flat);
    forall k | 0 <= k < n ensures ParseSegment(Decimal(1 + k), flat[5 * k + 1..5 * k + 5]).Some? {
      FoundInPlace(tokens, found, k);
    }
  }

  /** A row read in place, with no equal neighbours, is printable. */
  lemma RowIsPrintable(flat: seq<string>, k: nat, no: nat, row: Row)
    requires IsAmount(row.qty) && IsUnit(row.unit) && NoRepeats(flat) && 5 * k + 5 <= |flat|
    requires flat[5 * k..5 * k + 5] == [Decimal(no), row.description, row.code, row.qty, row.unit]
    requires ParseSegment(Decimal(no), flat[5 * k + 1..5 * k + 5]).Some?
    ensures Printable(row, no)
  {
    ParseFour(Decimal(no), row);
    hide ParseSegment, Decimal, IsAmount, IsUnit, Continues;
    var five := flat[5 * k..5 * k + 5];
    assert flat[5 * k + 1..5 * k + 5] == five[1..] == [row.description, row.code, row.qty, row.unit];
    assert flat[5 * k] == five[0] && flat[5 * k + 1] == five[1] && flat[5 * k + 2] == five[2]
      && flat[5 * k + 3] == five[3];
  }

  lemma {:induction false} ReadRowsArePrintable(rows: seq<Row>)
    requires rows != [] && AmountsAndUnits(rows) && |SegmentedItems(Dedupe(Flatten(rows, 1)))| == |rows|
    ensures PrintableRows(rows, 1)
  {
    hide *;
    var flat := Flatten(rows, 1);
    ReadInPlace(rows);
    DedupeFixes(flat);
    assert PrintableRows(rows, 1) by { EachPrintable(rows, flat); }
  }

  lemma {:induction false} EachPrintable(rows: seq<Row>, flat: seq<string>)
    requires flat == Flatten(rows, 1) && AmountsAndUnits(rows) && NoRepeats(flat) && |flat| == 5 * |rows|
    requires forall k :: 0 <= k < |rows| ==> ParseSegment(Decimal(1 + k), flat[5 * k + 1..5 * k + 5]).Some?
    ensures PrintableRows(rows, 1)
  {
    hide ParseSegment, Decimal, Flatten, IsAmount, IsUnit, Printable, NoRepeats;
    forall k | 0 <= k < |rows| ensures Printable(rows[k], 1 + k) {
      FlattenAt(rows, 1, k);
      RowIsPrintable(flat, k, 1 + k, rows[k]);
    }
  }

  /**
   * For all rows with an amount and a unit: they come back exactly, or even just in their number, if and only if every
   * row is printable and the last one does not hold the number that would come next.
   */
  lemma {:induction false} RoundTripIff(rows: seq<Row>)
    requires rows != [] && AmountsAndUnits(rows)
    ensures var extracted := SegmentedItems(Dedupe(Flatten(rows, 1)));
      && (extracted == Numbering(rows, 1) <==> PrintableRows(rows, 1) && !Clash(rows, 1))
      && (|extracted| == |rows| <==> PrintableRows(rows, 1) && !Clash(rows, 1))
  {
    hide Decimal, IsAmount, IsUnit, Continues, Flatten, Dedupe, SegmentedItems, Clash;
    if |SegmentedItems(Dedupe(Flatten(rows, 1)))| == |rows| { ReadRowsArePrintable(rows); }
    if PrintableRows(rows, 1) { RoundTrip(rows); }
  }
}
