/** RFQs from the lines of the attachment on: header, window, segmented search, and the scan it falls back to. */
module RfqText {
  import opened Text
  import opened VerticalTokens
  import opened MailSchemas
  import opened VerticalHeader
  import R = RfqTable
  import RfqRoundTrip
  import RfqWrapped
  import RfqSearch

  // ----- the scan used when the search finds nothing -----

  /** `_looks_like_rfq_item` */
  predicate LooksLikeItem(description: string, code: string, qty: string, unit: string) {
    Strip(description) != "" && Strip(code) != "" && IsAmount(qty) && IsUnit(unit)
  }

  /** A row of five tokens with its number in front, or behind the description. */
  function FiveAt(tokens: seq<string>, i: nat): R.Option<R.Item>
    requires i < |tokens|
  {
    if i + 4 >= |tokens| then R.None
    else if IsNumber(tokens[i]) && LooksLikeItem(tokens[i + 1], tokens[i + 2], tokens[i + 3], tokens[i + 4]) then
      R.Some(R.Item(tokens[i], tokens[i + 1], tokens[i + 2], tokens[i + 3], tokens[i + 4]))
    else if IsNumber(tokens[i + 1]) && LooksLikeItem(tokens[i], tokens[i + 2], tokens[i + 3], tokens[i + 4]) then
      R.Some(R.Item(tokens[i + 1], tokens[i], tokens[i + 2], tokens[i + 3], tokens[i + 4]))
    else R.None
  }

  function Scan(tokens: seq<string>, i: nat): seq<R.Item>
    decreases |tokens| - i
  {
    if i >= |tokens| then []
    else match FiveAt(tokens, i)
      case Some(item) => [item] + Scan(tokens, i + 5)
      case None => Scan(tokens, i + 1)
  }

  /** `_extract_vertical_rfq_line_items` behind the header. */
  function TableItems(tokens: seq<string>): seq<R.Item> {
    if R.SegmentedItems(tokens) != [] then R.SegmentedItems(tokens) else Scan(tokens, 0)
  }

  function Items(footer: string -> bool, lines: seq<string>): seq<R.Item> {
    match TableTokens(RFQ_ITEMS, footer, lines)
    case None => []
    case Some(tokens) => TableItems(tokens)
  }

  method ScanItems(tokens: seq<string>) returns (items: seq<R.Item>)
    ensures items == Scan(tokens, 0)
  {
    hide LooksLikeItem, IsNumber;
    items := [];
    assert [] + Scan(tokens, 0) == Scan(tokens, 0);
    var index := 0;
    while index < |tokens|
      invariant Scan(tokens, 0) == items + Scan(tokens, index)
      decreases |tokens| - index
    {
      var found := FiveAt(tokens, index);
      if found.Some? {
        ConcatAssociates(items, [found.value], Scan(tokens, index + 5));
        items := items + [found.value];
        index := index + 5;
      } else {
        index := index + 1;
      }
    }
    assert Scan(tokens, index) == [] && items + [] == items;
  }

  method ExtractItems(footer: string -> bool, lines: seq<string>) returns (items: seq<R.Item>)
    ensures items == Items(footer, lines)
  {
    hide TableTokens, R.SegmentedItems, Scan;
    var tokens := ReadTokens(RFQ_ITEMS, footer, lines);
    if tokens.None? {
      return [];
    }
    items := R.ExtractSegmentedItems(tokens.value);
    if items == [] {
      items := ScanItems(tokens.value);
    }
  }

  // ----- when the scan restores printed rows -----

  lemma {:induction false} ScanBound(tokens: seq<string>, i: nat)
    requires i <= |tokens|
    ensures i + 5 * |Scan(tokens, i)| <= |tokens|
    decreases |tokens| - i
  {
    hide LooksLikeItem, IsNumber;
    if i < |tokens| {
      if FiveAt(tokens, i).Some? { ScanBound(tokens, i + 5); } else { ScanBound(tokens, i + 1); }
    }
  }

  predicate Filled(row: RfqRoundTrip.Row) { Strip(row.description) != "" && Strip(row.code) != "" }

  predicate AllFilled(rows: seq<RfqRoundTrip.Row>) { forall k :: 0 <= k < |rows| ==> Filled(rows[k]) }

  lemma ScanStep(tokens: seq<string>, i: nat)
    requires i < |tokens|
    ensures Scan(tokens, i) == match FiveAt(tokens, i)
      case Some(item) => [item] + Scan(tokens, i + 5)
      case None => Scan(tokens, i + 1)
  {
    hide FiveAt;
  }

  /** The five tokens of a printed row are read as that row exactly when its cells are filled. */
  lemma {:induction false} FiveOfRow(rows: seq<RfqRoundTrip.Row>, j: nat)
    requires j < |rows| && RfqRoundTrip.AmountsAndUnits(rows) && NoRepeats(RfqRoundTrip.Flatten(rows, 1))
    ensures var tokens := RfqRoundTrip.Flatten(rows, 1);
      5 * j < |tokens| == 5 * |rows|
        && (FiveAt(tokens, 5 * j) == R.Some(RfqRoundTrip.Numbering(rows, 1)[j]) <==> Filled(rows[j]))
  {
    RfqRoundTrip.RowTokens(rows, 1, j);
    hide RfqRoundTrip.Flatten, Decimal, Strip, IsAmount, IsUnit;
    DecimalIsNumber(1 + j);
    hide IsNumber;
    var tokens, row := RfqRoundTrip.Flatten(rows, 1), rows[j];
    assert tokens[5 * j] != tokens[5 * j + 1];
    assert IsAmount(row.qty) && IsUnit(row.unit);
  }

  lemma SameHead(x: R.Item, a: seq<R.Item>, y: R.Item, b: seq<R.Item>)
    ensures [x] + a == [y] + b <==> x == y && a == b
  {
    if [x] + a == [y] + b {
      assert ([x] + a)[0] == ([y] + b)[0] && ([x] + a)[1..] == ([y] + b)[1..];
    }
  }

  ghost predicate FilledFrom(rows: seq<RfqRoundTrip.Row>, j: nat) { forall k :: j <= k < |rows| ==> Filled(rows[k]) }

  /** With only full rows left to read, the scan reads them all or falls short in number. */
  lemma ScanHead(tokens: seq<string>, i: nat, item: R.Item, rest: seq<R.Item>)
    requires i < |tokens| == i + 5 * (1 + |rest|)
    ensures Scan(tokens, i) == [item] + rest <==> FiveAt(tokens, i) == R.Some(item) && Scan(tokens, i + 5) == rest
  {
    ScanStep(tokens, i);
    ScanBound(tokens, i + 1);
    hide Scan, FiveAt;
    match FiveAt(tokens, i)
    case None => assert |[item] + rest| == 1 + |rest|;
    case Some(found) => SameHead(found, Scan(tokens, i + 5), item, rest);
  }

  lemma {:induction false} ScanRows(rows: seq<RfqRoundTrip.Row>, j: nat)
    requires j <= |rows| && RfqRoundTrip.AmountsAndUnits(rows) && NoRepeats(RfqRoundTrip.Flatten(rows, 1))
    ensures Scan(RfqRoundTrip.Flatten(rows, 1), 5 * j) == RfqRoundTrip.Numbering(rows, 1)[j..] <==> FilledFrom(rows, j)
    decreases |rows| - j
  {
    hide RfqRoundTrip.Flatten, RfqRoundTrip.Numbering, RfqRoundTrip.AmountsAndUnits, NoRepeats, FiveAt, Filled;
    var tokens, items := RfqRoundTrip.Flatten(rows, 1), RfqRoundTrip.Numbering(rows, 1);
    RfqRoundTrip.FlattenLength(rows, 1);
    if j < |rows| {
      hide Scan;
      ScanRows(rows, j + 1);
      FiveOfRow(rows, j);
      assert items[j..] == [items[j]] + items[j + 1..];
      assert 5 * (j + 1) == 5 * j + 5;
      ScanHead(tokens, 5 * j, items[j], items[j + 1..]);
      assert FilledFrom(rows, j) <==> Filled(rows[j]) && FilledFrom(rows, j + 1);
    }
  }

  /**
   * For rows with an amount and a unit, the scan restores all of them if and only if no two neighbouring tokens are
   * equal and the other cells are filled.
   */
  lemma ScanRestoresIff(rows: seq<RfqRoundTrip.Row>)
    requires RfqRoundTrip.AmountsAndUnits(rows)
    ensures var flat := RfqRoundTrip.Flatten(rows, 1);
      Scan(Dedupe(flat), 0) == RfqRoundTrip.Numbering(rows, 1) <==> NoRepeats(flat) && AllFilled(rows)
  {
    var flat := RfqRoundTrip.Flatten(rows, 1);
    RfqRoundTrip.FlattenLength(rows, 1);
    DedupeShrinks(flat);
    DedupeFixes(flat);
    ScanBound(Dedupe(flat), 0);
    var items := RfqRoundTrip.Numbering(rows, 1);
    assert items[0..] == items;
    hide RfqRoundTrip.Flatten, RfqRoundTrip.Numbering, RfqRoundTrip.AmountsAndUnits, NoRepeats, Filled, Scan, Dedupe;
    if |Dedupe(flat)| == |flat| { RfqRoundTrip.DedupeOfSameLength(flat); }
    if NoRepeats(flat) {
      ScanRows(rows, 0);
      assert FilledFrom(rows, 0) <==> AllFilled(rows);
    }
  }

  // ----- the expected count -----

  lemma {:induction false} ScanNumbered(tokens: seq<string>, i: nat)
    ensures forall k :: 0 <= k < |Scan(tokens, i)| ==> IsNumber(Scan(tokens, i)[k].no)
    decreases |tokens| - i
  {
    hide IsNumber, LooksLikeItem;
    if i < |tokens| {
      ScanNumbered(tokens, i + 1);
      if FiveAt(tokens, i).Some? { ScanNumbered(tokens, i + 5); }
    }
  }

  /** Every item of a table, however it was read, has a number. */
  lemma ItemsHaveNumbers(tokens: seq<string>)
    ensures forall k :: 0 <= k < |TableItems(tokens)| ==> IsNumber(TableItems(tokens)[k].no)
  {
    RfqRoundTrip.ItemsNumbered(tokens);
    ScanNumbered(tokens, 0);
    hide Decimal, R.SegmentedItems, Scan, IsNumber;
    forall k | 0 <= k < |TableItems(tokens)| ensures IsNumber(TableItems(tokens)[k].no) {
      if R.SegmentedItems(tokens) != [] {
        assert TableItems(tokens)[k].no == Decimal(1 + k);
        DecimalIsNumber(1 + k);
      }
    }
  }

  lemma DecimalIsNumber(n: nat)
    ensures IsNumber(Decimal(n))
  {
    hide Decimal;
  }

  lemma {:induction false} MaxConcat(a: seq<nat>, b: seq<nat>)
    ensures Max(a + b) == if Max(a) >= Max(b) then Max(a) else Max(b)
  {
    if a == [] {
      assert a + b == b;
    } else {
      MaxConcat(a[1..], b);
      assert (a + b)[1..] == a[1..] + b;
    }
  }

  /** The expected count: the numbers of one-line rows, and those of the vertical table. */
  function Expected(horizontal: seq<nat>, tokens: seq<string>): nat {
    Max(horizontal + RfqRoundTrip.Numbers(TableItems(tokens)))
  }

  /**
   * For every token list and whatever one-line rows announce: the table's own items are too few for the expected count
   * if and only if a one-line row announces more, or the search found nothing and the scan read a number above its
   * count.
   */
  lemma TooFewIff(horizontal: seq<nat>, tokens: seq<string>)
    ensures var items := TableItems(tokens);
      LineItemsMissing(Expected(horizontal, tokens), |items|) <==>
        || Max(horizontal) > |items|
        || (R.SegmentedItems(tokens) == [] && Max(RfqRoundTrip.Numbers(items)) > |items|)
  {
    MaxConcat(horizontal, RfqRoundTrip.Numbers(TableItems(tokens)));
    RfqRoundTrip.ExpectedCountIsItemCount(tokens);
    hide R.SegmentedItems, Scan, RfqRoundTrip.Numbers, Max;
  }

  // ----- a printed page -----

  const LABELS := ["no", "description", "code", "qty", "unit"]

  /** What stands before opens no header; then the labels, the printed table, and a footer or nothing. */
  ghost predicate Page(footer: string -> bool, lines: seq<string>, before: seq<string>, labels: seq<string>,
      table: seq<string>, after: seq<string>) {
    && lines == before + (labels + (table + after))
    && |labels| == |LABELS| && (forall k :: 0 <= k < |labels| ==> Fold(labels[k]) == LABELS[k])
    && (forall j :: 0 <= j < |before| ==> !Opens(RFQ_ITEMS, lines, j))
    && (forall k :: 0 <= k < |table| ==> !footer(table[k])) && (after == [] || footer(after[0]))
    && (forall j :: 0 <= j < 7 && j < |table + after| ==> Fold((table + after)[j]) != "unit")
  }

  lemma PageLines(footer: string -> bool, lines: seq<string>, before: seq<string>, labels: seq<string>,
      table: seq<string>, after: seq<string>)
    requires Page(footer, lines, before, labels, table, after)
    ensures var i := |before|;
      && i + 5 <= |lines| && lines[i + 5..] == table + after
      && (forall k :: 0 <= k < 5 ==> Fold(lines[i + k]) == LABELS[k])
      && (forall j :: i + 5 <= j < i + 12 && j < |lines| ==> Fold(lines[j]) != "unit")
      && (forall j :: 0 <= j < i ==> !Opens(RFQ_ITEMS, lines, j)) && (after == [] || footer(after[0]))
  {
    hide Fold, Opens;
    var i, rest := |before|, table + after;
    forall k | 0 <= k < 5 ensures Fold(lines[i + k]) == LABELS[k] { assert lines[i + k] == labels[k]; }
    forall j | i + 5 <= j < i + 12 && j < |lines|
      ensures Fold(lines[j]) != "unit" { assert lines[j] == rest[j - i - 5]; }
  }

  lemma LabelsOpen(lines: seq<string>, i: nat)
    requires i + 5 <= |lines| && forall k :: 0 <= k < 5 ==> Fold(lines[i + k]) == LABELS[k]
    ensures Opens(RFQ_ITEMS, lines, i) && Fold(lines[i + 4]) == "unit"
  {
    assert LABELS[0] == "no" && LABELS[1] == "description" && LABELS[2] == "code" && LABELS[3] == "qty"
      && LABELS[4] == "unit";
    hide Fold, Opens;
    OpensAt(RFQ_ITEMS, lines, i, LABELS);
  }

  lemma EndFound(lines: seq<string>, i: nat)
    requires i + 5 <= |lines| && (forall j :: 0 <= j < i ==> !Opens(RFQ_ITEMS, lines, j)) && Opens(RFQ_ITEMS, lines, i)
    requires Fold(lines[i + 4]) == "unit" && forall j :: i + 5 <= j < i + 12 && j < |lines| ==> Fold(lines[j]) != "unit"
    ensures HeaderEnd(RFQ_ITEMS, lines, 0) == Some(i + 4)
  {
    hide Opens, Fold, HeaderEnd;
    HeaderAt(RFQ_ITEMS, lines, i, i + 4);
  }

  lemma PageTokens(footer: string -> bool, lines: seq<string>, before: seq<string>, labels: seq<string>,
      table: seq<string>, after: seq<string>)
    requires Page(footer, lines, before, labels, table, after) && |table| <= 119
    ensures TableTokens(RFQ_ITEMS, footer, lines) == Some(Dedupe(table))
  {
    assert forall k :: 0 <= k < |table| ==> !footer(table[k]);
    hide Fold, Opens, Dedupe, HeaderEnd, Body, Page;
    PageLines(footer, lines, before, labels, table, after);
    LabelsOpen(lines, |before|);
    EndFound(lines, |before|);
    BodyIs(footer, lines, |before| + 5, 119, table, after);
  }

  /** The printed tables that come back: by the search, or by the scan where the search finds nothing to read. */
  predicate Restorable(rows: seq<RfqRoundTrip.Row>)
    requires rows != []
  {
    var flat := RfqRoundTrip.Flatten(rows, 1);
    || (RfqRoundTrip.PrintableRows(rows, 1) && !RfqRoundTrip.Clash(rows, 1))
    || (NoRepeats(flat) && AllFilled(rows) && RfqSearch.NothingFrom(flat, 0, Decimal(1), Decimal(2)))
  }

  /** Of the tokens of a table. */
  lemma TableRoundTripIff(rows: seq<RfqRoundTrip.Row>)
    requires rows != [] && RfqRoundTrip.AmountsAndUnits(rows)
    ensures TableItems(Dedupe(RfqRoundTrip.Flatten(rows, 1))) == RfqRoundTrip.Numbering(rows, 1) <==> Restorable(rows)
  {
    var flat := RfqRoundTrip.Flatten(rows, 1);
    RfqRoundTrip.RoundTripIff(rows);
    ScanRestoresIff(rows);
    DedupeFixes(flat);
    RfqSearch.SearchFindsNothingIff(flat);
    hide R.SegmentedItems, Dedupe, Scan, AllFilled, NoRepeats, RfqRoundTrip.Flatten, RfqRoundTrip.PrintableRows;
    hide RfqRoundTrip.Clash, RfqRoundTrip.AmountsAndUnits, RfqSearch.NothingFrom, Decimal;
  }

  /**
   * A page with a printed table of at most 119 lines, which is all the program reads, of rows with an amount and a
   * unit: the extracted items are exactly the printed rows if and only if every row is printable and the last one does
   * not hold the number that would come next, or else no neighbouring tokens are equal, no cell is blank, and nothing
   * behind a "1" is readable, so that the scan is reached at all.
   */
  lemma PageRoundTripIff(footer: string -> bool, lines: seq<string>, before: seq<string>, labels: seq<string>,
      rows: seq<RfqRoundTrip.Row>, after: seq<string>)
    requires rows != [] && RfqRoundTrip.AmountsAndUnits(rows)
    requires Page(footer, lines, before, labels, RfqRoundTrip.Flatten(rows, 1), after)
      && |RfqRoundTrip.Flatten(rows, 1)| <= 119
    ensures Items(footer, lines) == RfqRoundTrip.Numbering(rows, 1) <==> Restorable(rows)
  {
    PageTokens(footer, lines, before, labels, RfqRoundTrip.Flatten(rows, 1), after);
    TableRoundTripIff(rows);
    hide TableTokens, TableItems, Page, Dedupe, Restorable, RfqRoundTrip.Flatten, RfqRoundTrip.AmountsAndUnits;
  }

  /** The same for rows wrapped over any number of lines. */
  lemma WrappedPage(footer: string -> bool, lines: seq<string>, before: seq<string>, labels: seq<string>,
      rows: seq<RfqRoundTrip.Wrapped>, after: seq<string>)
    requires rows != [] && RfqWrapped.AllReadable(rows) && RfqWrapped.Separable(rows, 1)
      && NoRepeats(RfqWrapped.Stream(rows, 1))
    requires Page(footer, lines, before, labels, RfqWrapped.Stream(rows, 1), after)
      && |RfqWrapped.Stream(rows, 1)| <= 119
    ensures Items(footer, lines) == RfqWrapped.Rows(rows, 1)
  {
    PageTokens(footer, lines, before, labels, RfqWrapped.Stream(rows, 1), after);
    RfqWrapped.WrappedRoundTripIff(rows);
    assert RfqWrapped.Rows(rows, 1) != [] by { hide RfqWrapped.ItemOf; }
    hide TableTokens, Page, R.SegmentedItems, Dedupe, Scan, RfqWrapped.Stream, RfqWrapped.Rows, RfqWrapped.Separable,
      NoRepeats;
  }
}
