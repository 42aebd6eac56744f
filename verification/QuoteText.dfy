/**
 * Quotes from the lines of the attachment on: the two header searches, their windows, and the round trip through them.
 */
module QuoteText {
  import opened Text
  import opened VerticalTokens
  import opened MailSchemas
  import opened VerticalHeader
  import opened QuoteTable

  /** `_extract_vertical_quote_line_items` */
  function Items(p: Patterns, lines: seq<string>): seq<Item> {
    match TableTokens(QUOTE_ITEMS, p.footer, lines)
    case None => []
    case Some(tokens) => Extract(p, tokens, 0)
  }

  /** `_quote_vertical_line_item_numbers`, which searches for a different header. */
  function LineNumbers(p: Patterns, lines: seq<string>): seq<nat> {
    match TableTokens(QUOTE_NUMBERS, p.footer, lines)
    case None => []
    case Some(tokens) => Numbers(p, tokens, 0)
  }

  method ExtractItems(p: Patterns, lines: seq<string>) returns (items: seq<Item>)
    ensures items == Items(p, lines)
  {
    hide TableTokens, Extract;
    var tokens := ReadTokens(QUOTE_ITEMS, p.footer, lines);
    if tokens.None? {
      return [];
    }
    items := ExtractQuoteItems(p, tokens.value);
  }

  const LABELS := ["no", "description", "qty", "unit", "u/price", "amount"]

  /**
   * A page with one printed table: what stands before opens no header, the labels, the rows, and a footer or nothing.
   */
  ghost predicate Page(p: Patterns, lines: seq<string>, before: seq<string>, labels: seq<string>, rows: seq<Row>,
      after: seq<string>) {
    && lines == before + (labels + (Flatten(rows) + after))
    && |labels| == |LABELS| && (forall k :: 0 <= k < |labels| ==> Fold(labels[k]) == LABELS[k])
    && NoneBefore(lines, |before|)
    && (after == [] || p.footer(after[0]))
    && (forall j :: 0 <= j < 12 && j < |Flatten(rows) + after| ==> Fold((Flatten(rows) + after)[j]) != "amount")
  }

  lemma PageLines(p: Patterns, lines: seq<string>, before: seq<string>, labels: seq<string>, rows: seq<Row>,
      after: seq<string>)
    requires Page(p, lines, before, labels, rows, after)
    ensures var i := |before|;
      && i + 6 <= |lines| && lines[i + 6..] == Flatten(rows) + after && NoneBefore(lines, i)
      && (forall k :: 0 <= k < 6 ==> Fold(lines[i + k]) == LABELS[k])
      && (forall j :: i + 6 <= j < i + 18 && j < |lines| ==> Fold(lines[j]) != "amount")
  {
    hide Fold, Flatten, Opens, NoneBefore;
    var i, rest := |before|, Flatten(rows) + after;
    forall k | 0 <= k < 6 ensures Fold(lines[i + k]) == LABELS[k] { assert lines[i + k] == labels[k]; }
    forall j | i + 6 <= j < i + 18 && j < |lines|
      ensures Fold(lines[j]) != "amount" { assert lines[j] == rest[j - i - 6]; }
  }

  /**
   * Six labels on consecutive lines, the closing one not again within reach, open both headers and end them together.
   */
  lemma LabelsOpen(lines: seq<string>, i: nat)
    requires i + 6 <= |lines| && forall k :: 0 <= k < 6 ==> Fold(lines[i + k]) == LABELS[k]
    ensures Opens(QUOTE_NUMBERS, lines, i) && Opens(QUOTE_ITEMS, lines, i + 1) && !Opens(QUOTE_ITEMS, lines, i)
    ensures Fold(lines[i + 5]) == "amount"
  {
    var tail := ["description", "qty", "unit", "u/price", "amount"];
    assert LABELS[0] == "no" && LABELS[5] == "amount" && LABELS[1..] == tail;
    assert Fold(lines[i + 0]) == "no" && "no" != "description";
    hide Fold;
    forall k | 0 <= k < 5 ensures Fold(lines[i + 1 + k]) == tail[k] {
      assert Fold(lines[i + (1 + k)]) == LABELS[1 + k] == LABELS[1..][k];
    }
    hide Opens;
    OpensAt(QUOTE_NUMBERS, lines, i, LABELS);
    OpensAt(QUOTE_ITEMS, lines, i + 1, tail);
    NotFirst(QUOTE_ITEMS, lines, i);
  }

  lemma NotFirst(h: Header, lines: seq<string>, i: nat)
    requires i < |lines| && Fold(lines[i]) != h.first
    ensures !Opens(h, lines, i)
  {
  }

  /** Before line `i` neither search finds a header. */
  ghost predicate NoneBefore(lines: seq<string>, i: nat) {
    forall j :: 0 <= j < i ==> !Opens(QUOTE_ITEMS, lines, j) && !Opens(QUOTE_NUMBERS, lines, j)
  }

  lemma EndsFound(lines: seq<string>, i: nat)
    requires i + 6 <= |lines| && NoneBefore(lines, i)
    requires Opens(QUOTE_NUMBERS, lines, i) && Opens(QUOTE_ITEMS, lines, i + 1) && !Opens(QUOTE_ITEMS, lines, i)
    requires Fold(lines[i + 5]) == "amount" && forall j :: i + 6 <= j < i + 18 && j < |lines|
                                                 ==> Fold(lines[j]) != "amount"
    ensures HeaderEnd(QUOTE_ITEMS, lines, 0) == Some(i + 5) == HeaderEnd(QUOTE_NUMBERS, lines, 0)
  {
    hide Opens, Fold, HeaderEnd;
    HeaderAt(QUOTE_NUMBERS, lines, i, i + 5);
    HeaderAt(QUOTE_ITEMS, lines, i + 1, i + 5);
  }

  /** Both searches end at the same line, though one starts at the number label and the other at the description. */
  lemma HeadersEndTogether(p: Patterns, lines: seq<string>, before: seq<string>, labels: seq<string>, rows: seq<Row>,
      after: seq<string>)
    requires Page(p, lines, before, labels, rows, after)
    ensures HeaderEnd(QUOTE_ITEMS, lines, 0) == Some(|before| + 5) == HeaderEnd(QUOTE_NUMBERS, lines, 0)
  {
    hide *;
    PageLines(p, lines, before, labels, rows, after);
    LabelsOpen(lines, |before|);
    EndsFound(lines, |before|);
  }

  lemma PageTokens(p: Patterns, lines: seq<string>, before: seq<string>, labels: seq<string>, rows: seq<Row>,
      after: seq<string>)
    requires Page(p, lines, before, labels, rows, after) && PrintableRows(p, rows) && |Flatten(rows)| <= 79
    ensures TableTokens(QUOTE_ITEMS, p.footer, lines) == Some(Dedupe(Flatten(rows)))
      == TableTokens(QUOTE_NUMBERS, p.footer, lines)
  {
    HeadersEndTogether(p, lines, before, labels, rows, after);
    PageLines(p, lines, before, labels, rows, after);
    hide Fold, Flatten, Opens, Dedupe, HeaderEnd, Body;
    forall k | 0 <= k < |Flatten(rows)| ensures !p.footer(Flatten(rows)[k]) {
      FlattenSource(rows, Flatten(rows)[k]);
      var r :| 0 <= r < |rows| && Flatten(rows)[k] in rows[r].Tokens();
      assert Printable(p, rows[r]);
    }
    BodyIs(p.footer, lines, |before| + 6, 79, Flatten(rows), after);
  }

  /**
   * A page with a printed table of at most 79 lines, which is all the program reads: the extracted rows are exactly the
   * printed ones, and the counting scan finds exactly their numbers, if and only if no amount equals the next number.
   */
  lemma PageRoundTrip(p: Patterns, lines: seq<string>, before: seq<string>, labels: seq<string>, rows: seq<Row>,
      after: seq<string>)
    requires Page(p, lines, before, labels, rows, after) && PrintableRows(p, rows) && |Flatten(rows)| <= 79
    ensures Items(p, lines) == Printed(Kept(rows)) && |LineNumbers(p, lines)| == |Items(p, lines)|
    ensures Items(p, lines) == Printed(rows) <==> NoCollision(rows)
    ensures |LineNumbers(p, lines)| == |rows| <== NoCollision(rows)
  {
    PageTokens(p, lines, before, labels, rows, after);
    hide TableTokens, Page, Extract, Numbers, Flatten, Dedupe, PrintableRows;
    RoundTrip(p, rows);
    KeptAll(rows);
    ReadsKept(p, rows);
    PrintedLength(Kept(rows));
    NumbersLength(Kept(rows));
  }

  lemma {:induction false} NumbersLength(rows: seq<Row>)
    requires forall k :: 0 <= k < |rows| ==> IsNumber(rows[k].no)
    ensures |RowNumbers(rows)| == |rows|
  {
    if rows != [] { NumbersLength(rows[1..]); }
  }

  /** With rows numbered 1..n as well, the expected count is n and the extracted rows are never too few. */
  lemma PageIsComplete(p: Patterns, lines: seq<string>, before: seq<string>, labels: seq<string>, rows: seq<Row>,
      after: seq<string>)
    requires Page(p, lines, before, labels, rows, after) && PrintableRows(p, rows) && |Flatten(rows)| <= 79
      && NoCollision(rows)
    requires forall k :: 0 <= k < |rows| ==> rows[k].no == Decimal(1 + k)
    ensures Max(LineNumbers(p, lines)) == |rows| == |Items(p, lines)|
      && !LineItemsMissing(Max(LineNumbers(p, lines)), |Items(p, lines)|)
  {
    PageTokens(p, lines, before, labels, rows, after);
    hide TableTokens, Page, Extract, Numbers, Flatten, Dedupe, PrintableRows, Max, Decimal;
    ExpectedCountIsRowCount(p, rows);
  }

  // ----- labels in any order -----

  /** Each label of the header stands on exactly one line, at most `h.width` lines from the first label on. */
  ghost predicate Once(h: Header, lines: seq<string>, at: string -> nat) {
    forall l :: l in h.labels ==>
      at(l) < |lines| && at(l) < at(h.first) + h.width && forall k :: 0 <= k < |lines|
                                                            ==> (Fold(lines[k]) == l <==> k == at(l))
  }

  ghost predicate StartsHeader(h: Header, at: string -> nat) { forall l :: l in h.labels ==> at(h.first) <= at(l) }

  lemma OpensOnce(h: Header, lines: seq<string>, at: string -> nat, i: nat)
    requires Once(h, lines, at) && h.first in h.labels && i < |lines|
    ensures Opens(h, lines, i) <==> i == at(h.first) && StartsHeader(h, at)
  {
    hide Fold;
    if i == at(h.first) {
      forall l | l in h.labels ensures Labelled(lines, i, i + h.width, l) <==> i <= at(l) {
        assert Fold(lines[at(l)]) == l;
      }
    }
  }

  lemma {:induction false} NeverOpens(h: Header, lines: seq<string>, k: nat)
    requires forall i :: 0 <= i < |lines| ==> !Opens(h, lines, i)
    ensures HeaderEnd(h, lines, k) == None
    decreases |lines| - k
  {
    hide Opens;
    if k < |lines| { NeverOpens(h, lines, k + 1); }
  }

  /** A search finds such a header if and only if the label it starts at stands first. */
  lemma HeaderOnce(h: Header, lines: seq<string>, at: string -> nat)
    requires Once(h, lines, at) && h.first in h.labels && h.last in h.labels
    ensures HeaderEnd(h, lines, 0) == if StartsHeader(h, at) then Some(at(h.last)) else None
  {
    forall i | 0 <= i < |lines| ensures Opens(h, lines, i)
      <==> i == at(h.first) && StartsHeader(h, at) { OpensOnce(h, lines, at, i); }
    hide Opens, HeaderEnd, Fold;
    if StartsHeader(h, at) {
      HeaderAt(h, lines, at(h.first), at(h.last));
    } else {
      NeverOpens(h, lines, 0);
    }
  }

  /**
   * With each label on one line, in whatever order: the two searches come to the same end, or both to none, if and only
   * if the number label standing first and the description standing before quantity, unit, price and amount go
   * together. Where only the number label stands first, rows are counted below a header that the extraction never
   * finds.
   */
  lemma HeadersAgreeIff(p: Patterns, lines: seq<string>, at: string -> nat)
    requires Once(QUOTE_ITEMS, lines, at) && Once(QUOTE_NUMBERS, lines, at)
    ensures HeaderEnd(QUOTE_NUMBERS, lines, 0) == HeaderEnd(QUOTE_ITEMS, lines, 0)
            <==> (StartsHeader(QUOTE_NUMBERS, at) <==> StartsHeader(QUOTE_ITEMS, at))
    ensures StartsHeader(QUOTE_NUMBERS, at) && !StartsHeader(QUOTE_ITEMS, at) ==>
      HeaderEnd(QUOTE_NUMBERS, lines, 0) == Some(at("amount")) && Items(p, lines) == []
  {
    hide StartsHeader, HeaderEnd, Once;
    HeaderOnce(QUOTE_ITEMS, lines, at);
    HeaderOnce(QUOTE_NUMBERS, lines, at);
  }
}
