/**
 * The vertical quote parser: rows No, Description, Qty, Unit, U/Price, Amount, one token a line, de-duplicated first.
 */
module QuoteTable {
  import opened Text
  import opened VerticalTokens

  datatype Item = Item(description: string, qty: string, unit: string, unitPrice: string, amount: string)

  /** The patterns the program matches tokens against and this model does not fix. */
  datatype Patterns = Patterns(footer: string -> bool, currency: string -> bool, won: string -> string)

  /** `""` stands for a position past the end, as in the program. */
  function TokenAt(tokens: seq<string>, i: nat): string {
    if i < |tokens| then tokens[i] else ""
  }

  /** The shape of the start of a row, tested at `i`. */
  predicate LooksLikeStart(tokens: seq<string>, i: nat) {
    && i + 4 < |tokens|
    && IsNumber(tokens[i]) && Strip(tokens[i + 1]) != "" && IsAmount(tokens[i + 2])
    && IsAlpha(tokens[i + 3]) && IsAmount(tokens[i + 4])
  }

  /** The amount column of the row at `i`; it is the unit price when de-duplication may have removed it. */
  function AmountAt(p: Patterns, tokens: seq<string>, i: nat): string
    requires i + 4 < |tokens|
  {
    var amount := TokenAt(tokens, i + 5);
    if amount == "" || LooksLikeStart(tokens, i + 5) || p.footer(amount) then tokens[i + 4] else amount
  }

  predicate IsRow(p: Patterns, tokens: seq<string>, i: nat) {
    && i + 4 < |tokens|
    && IsNumber(tokens[i]) && IsAmount(tokens[i + 2]) && IsAlpha(tokens[i + 3])
    && IsAmount(tokens[i + 4]) && IsAmount(AmountAt(p, tokens, i))
  }

  /** The first currency code among tokens `i` .. `stop`, or `""`. */
  function Currency(p: Patterns, tokens: seq<string>, i: nat, stop: nat): string
    decreases stop - i
  {
    if i >= stop || i >= |tokens| then ""
    else if p.currency(tokens[i]) then tokens[i]
    else Currency(p, tokens, i + 1, stop)
  }

  function Money(p: Patterns, currency: string, value: string): string {
    p.won(Strip(currency + " " + value))
  }

  function ItemAt(p: Patterns, tokens: seq<string>, i: nat): Item
    requires IsRow(p, tokens, i)
  {
    var currency := Currency(p, tokens, i + 6, i + 10);
    Item(tokens[i + 1], tokens[i + 2], tokens[i + 3], Money(p, currency, tokens[i + 4]),
      Money(p, currency, AmountAt(p, tokens, i)))
  }

  /** The items read at positions `i` and later. */
  function Extract(p: Patterns, tokens: seq<string>, i: nat): seq<Item>
    decreases |tokens| - i
  {
    if i >= |tokens| then []
    else (if IsRow(p, tokens, i) then [ItemAt(p, tokens, i)] else []) + Extract(p, tokens, i + 1)
  }

  /** The row numbers the expected-count check reads; on the same tokens it visits the same positions. */
  function Numbers(p: Patterns, tokens: seq<string>, i: nat): seq<nat>
    decreases |tokens| - i
  {
    if i >= |tokens| then []
    else (if IsRow(p, tokens, i) then [Value(tokens[i])] else []) + Numbers(p, tokens, i + 1)
  }

  lemma ReadStep(p: Patterns, tokens: seq<string>, i: nat)
    requires i < |tokens|
    ensures Extract(p, tokens, i) == (if IsRow(p, tokens, i) then [ItemAt(p, tokens, i)] else [])
      + Extract(p, tokens, i + 1)
    ensures Numbers(p, tokens, i) == (if IsRow(p, tokens, i) then [Value(tokens[i])] else [])
      + Numbers(p, tokens, i + 1)
  {
    hide ItemAt;
  }

  lemma NothingBehind(p: Patterns, tokens: seq<string>)
    ensures Extract(p, tokens, |tokens|) == [] && Numbers(p, tokens, |tokens|) == []
  {
  }

  method ExtractQuoteItems(p: Patterns, tokens: seq<string>) returns (items: seq<Item>)
    ensures items == Extract(p, tokens, 0)
  {
    hide IsRow, ItemAt, Extract;
    NothingBehind(p, tokens);
    items := [];
    var index := 0;
    while index < |tokens|
      invariant index <= |tokens|
      invariant Extract(p, tokens, 0) == items + Extract(p, tokens, index)
    {
      ReadStep(p, tokens, index);
      if IsRow(p, tokens, index) {
        ConcatAssociates(items, [ItemAt(p, tokens, index)], Extract(p, tokens, index + 1));
        items := items + [ItemAt(p, tokens, index)];
      }
      index := index + 1;
    }
  }

  // ----- printing -----

  datatype Row = Row(no: string, description: string, qty: string, unit: string, price: string, amount: string) {
    function Tokens(): seq<string> { [no, description, qty, unit, price, amount] }
    function Printed(): Item { Item(description, qty, unit, price, amount) }
  }

  function Flatten(rows: seq<Row>): seq<string> {
    if rows == [] then [] else rows[0].Tokens() + Flatten(rows[1..])
  }

  /** What a printed row must satisfy, cell by cell. */
  ghost predicate Printable(p: Patterns, row: Row) {
    && IsNumber(row.no) && IsAmount(row.qty) && IsAlpha(row.unit) && IsAmount(row.price) && IsAmount(row.amount)
    && !IsAmount(row.description) && Strip(row.description) != ""
    && Strip(row.price) == row.price && Strip(row.amount) == row.amount
    && p.won(row.price) == row.price && p.won(row.amount) == row.amount
    && forall t :: t in row.Tokens() ==> !p.footer(t) && !p.currency(t)
  }

  /** The amount is repeated as the next row's number. */
  predicate Collides(rows: seq<Row>)
    requires rows != []
  {
    |rows| > 1 && rows[0].amount == rows[1].no
  }

  /** The rows that come back: a colliding row loses its amount, or disappears when its price is swallowed too. */
  function Kept(rows: seq<Row>): seq<Row> {
    if rows == [] then [] else
    var rest := Kept(rows[1..]);
    if !Collides(rows) then [rows[0]] + rest
    else if rows[0].price == rows[0].amount then rest
    else [rows[0].(amount := rows[0].price)] + rest
  }

  function Printed(rows: seq<Row>): seq<Item> {
    if rows == [] then [] else [rows[0].Printed()] + Printed(rows[1..])
  }

  ghost predicate PrintableRows(p: Patterns, rows: seq<Row>) {
    forall k :: 0 <= k < |rows| ==> Printable(p, rows[k])
  }

  /** What is left of the first row's six tokens after de-duplication. */
  function Block(rows: seq<Row>): (b: seq<string>)
    requires rows != []
  {
    var r := rows[0];
    [r.no, r.description, r.qty, r.unit] + Prices(r.price, r.amount, Collides(rows))
  }

  lemma Distinct(p: Patterns, r: Row)
    requires Printable(p, r)
    ensures r.no != r.description && r.description != r.qty && r.qty != r.unit && r.unit != r.price
    ensures IsAmount(r.no) && !IsNumber(r.description) && !IsNumber(r.unit) && !IsAmount(r.unit)
    ensures !IsAlpha(r.no) && !IsAlpha(r.price) && !IsAlpha(r.amount) && r.amount != "" && r.unit != ""
  {
    NumberIsAmount(r.no);
    AlphaIsNotAmount(r.unit);
    if IsNumber(r.description) { NumberIsAmount(r.description); }
    if IsAlpha(r.price) { AlphaIsNotAmount(r.price); }
    if IsAlpha(r.amount) { AlphaIsNotAmount(r.amount); }
    if IsAlpha(r.no) { AlphaIsNotAmount(r.no); }
  }

  /** How much of a price and an amount is left in front of `next`. */
  function Prices(price: string, amount: string, swallowed: bool): seq<string> {
    if swallowed then (if price == amount then [] else [price])
    else if price == amount then [price]
    else [price, amount]
  }

  lemma DedupePrices(price: string, amount: string, rest: seq<string>)
    ensures Dedupe([price, amount] + rest) == Prices(price, amount, rest != [] && rest[0] == amount) + Dedupe(rest)
  {
    hide Dedupe;
    DedupeCons(amount, rest);
    DedupeCons(price, [amount] + rest);
    ConcatAssociates([price], [amount], rest);
    ConcatAssociates([price], [amount], Dedupe(rest));
    assert [price] + [amount] == [price, amount];
  }

  lemma DedupePair(a: string, b: string, rest: seq<string>)
    requires a != b && (rest != [] ==> b != rest[0])
    ensures Dedupe([a, b] + rest) == [a, b] + Dedupe(rest)
  {
    hide Dedupe;
    DedupeCons(b, rest);
    DedupeCons(a, [b] + rest);
    ConcatAssociates([a], [b], rest);
    ConcatAssociates([a], [b], Dedupe(rest));
    assert [a] + [b] == [a, b];
  }

  lemma DedupeHead(a: string, b: string, c: string, d: string, rest: seq<string>)
    requires a != b && b != c && c != d && (rest != [] ==> d != rest[0])
    ensures Dedupe([a, b, c, d] + rest) == [a, b, c, d] + Dedupe(rest)
  {
    hide Dedupe;
    DedupePair(c, d, rest);
    DedupePair(a, b, [c, d] + rest);
    ConcatAssociates([a, b], [c, d], rest);
    ConcatAssociates([a, b], [c, d], Dedupe(rest));
    assert [a, b] + [c, d] == [a, b, c, d];
  }

  /** De-duplication works row by row. */
  lemma DedupeRows(p: Patterns, rows: seq<Row>)
    requires rows != [] && PrintableRows(p, rows)
    ensures Dedupe(Flatten(rows)) == Block(rows) + Dedupe(Flatten(rows[1..]))
  {
    hide IsNumber, IsAmount, IsAlpha, Dedupe, Strip, Flatten;
    var r, rest := rows[0], Flatten(rows[1..]);
    assert Printable(p, rows[0]);
    Distinct(p, r);
    hide Printable;
    FlattenHead(rows);
    DedupePrices(r.price, r.amount, rest);
    DedupeHead(r.no, r.description, r.qty, r.unit, [r.price, r.amount] + rest);
  }

  lemma FlattenHead(rows: seq<Row>)
    requires rows != []
    ensures var r, rest := rows[0], Flatten(rows[1..]);
      && Flatten(rows) == [r.no, r.description, r.qty, r.unit] + ([r.price, r.amount] + rest)
      && (rest != [] <==> |rows| > 1) && (rest != [] ==> rest[0] == rows[1].no)
  {
    var r, rest := rows[0], Flatten(rows[1..]);
    var head, prices := [r.no, r.description, r.qty, r.unit], [r.price, r.amount];
    assert r.Tokens() == head + prices;
    ConcatAssociates(head, prices, rest);
  }

  /** The shape of what follows a row: nothing, or the first four cells of the next row and an amount. */
  ghost predicate Tail(p: Patterns, tokens: seq<string>) {
    || tokens == []
    || (|tokens| >= 5 && IsNumber(tokens[0]) && IsAmount(tokens[0]) && !IsAlpha(tokens[0])
        && !IsAmount(tokens[1]) && !IsNumber(tokens[1]) && Strip(tokens[1]) != "" && tokens[1] != ""
        && IsAmount(tokens[2]) && IsAlpha(tokens[3]) && !IsNumber(tokens[3]) && !IsAmount(tokens[3]) && tokens[3] != ""
        && IsAmount(tokens[4]))
  }

  lemma TailOfRows(p: Patterns, rows: seq<Row>)
    requires PrintableRows(p, rows)
    ensures Tail(p, Dedupe(Flatten(rows))) && (rows != [] ==> Dedupe(Flatten(rows)) != [])
  {
    hide IsNumber, IsAmount, IsAlpha, Dedupe, Flatten;
    if rows == [] {
      EmptyTokens();
    } else {
      DedupeRows(p, rows);
      assert Printable(p, rows[0]);
      Distinct(p, rows[0]);
      var tokens := Dedupe(Flatten(rows));
      if Prices(rows[0].price, rows[0].amount, Collides(rows)) == [] {
        DedupeRows(p, rows[1..]);
        assert Printable(p, rows[1]);
        Distinct(p, rows[1]);
        assert tokens[4] == rows[1].no;
      } else {
        assert tokens[4] == rows[0].price;
      }
    }
  }

  lemma EmptyTokens()
    ensures Flatten([]) == [] && Dedupe([]) == []
  {
  }

  lemma {:induction false} DedupeSubset(values: seq<string>, t: string)
    requires t in Dedupe(values)
    ensures t in values
  {
    if |values| > 1 && t in Dedupe(values[1..]) { DedupeSubset(values[1..], t); }
  }

  lemma {:induction false} FlattenSource(rows: seq<Row>, t: string)
    requires t in Flatten(rows)
    ensures exists k :: 0 <= k < |rows| && t in rows[k].Tokens()
  {
    if t in rows[0].Tokens() {
    } else {
      assert Flatten(rows) == rows[0].Tokens() + Flatten(rows[1..]);
      FlattenSource(rows[1..], t);
      var k :| 0 <= k < |rows[1..]| && t in rows[1..][k].Tokens();
      assert rows[1..][k] == rows[k + 1];
    }
  }

  /** Neither a footer nor a currency code survives into the printed tokens. */
  ghost predicate Plain(p: Patterns, tokens: seq<string>) {
    forall i :: 0 <= i < |tokens| ==> !p.footer(tokens[i]) && !p.currency(tokens[i])
  }

  lemma PlainRows(p: Patterns, rows: seq<Row>)
    requires PrintableRows(p, rows)
    ensures Plain(p, Dedupe(Flatten(rows)))
  {
    var tokens := Dedupe(Flatten(rows));
    forall i | 0 <= i < |tokens| ensures !p.footer(tokens[i]) && !p.currency(tokens[i]) {
      DedupeSubset(Flatten(rows), tokens[i]);
      FlattenSource(rows, tokens[i]);
      var k :| 0 <= k < |rows| && tokens[i] in rows[k].Tokens();
      assert Printable(p, rows[k]);
    }
  }

  lemma {:induction false} NoCurrency(p: Patterns, tokens: seq<string>, i: nat, stop: nat)
    requires Plain(p, tokens)
    ensures Currency(p, tokens, i, stop) == ""
    decreases stop - i
  {
    if i < stop && i < |tokens| { NoCurrency(p, tokens, i + 1, stop); }
  }

  lemma PlainMoney(p: Patterns, value: string)
    requires Strip(value) == value && p.won(value) == value
    ensures Money(p, "", value) == value
  {
    assert "" + " " + value == " " + value;
    assert (" " + value)[1..] == value;
    assert StripLeft(" " + value) == StripLeft(value);
  }

  /** Reading is local: what is read at a position does not depend on what came before it. */
  lemma ReadsSuffix(p: Patterns, head: seq<string>, tail: seq<string>, i: nat)
    ensures IsRow(p, head + tail, |head| + i) == IsRow(p, tail, i)
    ensures IsRow(p, tail, i) ==> ItemAt(p, head + tail, |head| + i) == ItemAt(p, tail, i)
    ensures i < |tail| ==> (head + tail)[|head| + i] == tail[i]
  {
    hide IsNumber, IsAmount, IsAlpha, Money;
    CurrencySuffix(p, head, tail, i + 6, i + 10);
    LooksSuffix(head, tail, i + 5);
  }

  lemma LooksSuffix(head: seq<string>, tail: seq<string>, i: nat)
    ensures LooksLikeStart(head + tail, |head| + i) == LooksLikeStart(tail, i)
  {
    hide IsNumber, IsAmount, IsAlpha, Strip;
  }

  lemma {:induction false} CurrencySuffix(p: Patterns, head: seq<string>, tail: seq<string>, i: nat, stop: nat)
    ensures Currency(p, head + tail, |head| + i, |head| + stop) == Currency(p, tail, i, stop)
    decreases stop - i
  {
    if i < stop && i < |tail| { CurrencySuffix(p, head, tail, i + 1, stop); }
  }

  lemma {:induction false} ExtractSuffix(p: Patterns, head: seq<string>, tail: seq<string>, i: nat)
    ensures Extract(p, head + tail, |head| + i) == Extract(p, tail, i)
    ensures Numbers(p, head + tail, |head| + i) == Numbers(p, tail, i)
    decreases |tail| - i
  {
    hide IsRow, ItemAt;
    if i < |tail| {
      ReadsSuffix(p, head, tail, i);
      ExtractSuffix(p, head, tail, i + 1);
    }
  }

  /** The rows read from the first block: one, unless the collision swallowed its price too. */
  function FirstKept(rows: seq<Row>): seq<Row>
    requires rows != []
  {
    if !Collides(rows) then [rows[0]]
    else if rows[0].price == rows[0].amount then []
    else [rows[0].(amount := rows[0].price)]
  }

  /** A row whose amount survived is read as printed. */
  lemma ReadFull(p: Patterns, r: Row, tail: seq<string>)
    requires Printable(p, r) && Tail(p, tail)
    ensures var tokens := [r.no, r.description, r.qty, r.unit, r.price, r.amount] + tail;
      IsRow(p, tokens, 0) && AmountAt(p, tokens, 0) == r.amount
  {
    Distinct(p, r);
    assert !p.footer(r.amount) by { assert r.amount in r.Tokens(); }
    hide IsNumber, IsAmount, IsAlpha, Strip;
    var tokens := [r.no, r.description, r.qty, r.unit, r.price, r.amount] + tail;
    assert tail != [] ==> tokens[7] == tail[1];
    assert !LooksLikeStart(tokens, 5);
  }

  /** Right behind a collapsed price the next row starts, or nothing does. */
  lemma StartsBehind(tokens: seq<string>, p: Patterns, w: nat)
    requires w <= |tokens| && Tail(p, tokens[w..])
    ensures w == |tokens| || LooksLikeStart(tokens, w)
  {
    hide IsNumber, IsAmount, IsAlpha, Strip;
    var tail := tokens[w..];
    if tail != [] {
      assert tokens[w] == tail[0] && tokens[w + 1] == tail[1] && tokens[w + 2] == tail[2] && tokens[w + 3] == tail[3]
        && tokens[w + 4] == tail[4];
    }
  }

  /** So a row whose amount is gone gets its price for an amount. */
  lemma ReadCollapsed(p: Patterns, r: Row, tail: seq<string>)
    requires Printable(p, r) && Tail(p, tail)
    ensures var tokens := [r.no, r.description, r.qty, r.unit, r.price] + tail;
      IsRow(p, tokens, 0) && AmountAt(p, tokens, 0) == r.price
  {
    hide IsNumber, IsAmount, IsAlpha, Strip, LooksLikeStart, Tail;
    var tokens := [r.no, r.description, r.qty, r.unit, r.price] + tail;
    assert tokens[5..] == tail;
    StartsBehind(tokens, p, 5);
  }

  /** A row that lost price and amount to the next number is not read. */
  lemma ReadSwallowed(p: Patterns, r: Row, tail: seq<string>)
    requires Printable(p, r) && Tail(p, tail) && tail != [] && !p.footer(tail[1])
    ensures !IsRow(p, [r.no, r.description, r.qty, r.unit] + tail, 0)
  {
    hide IsNumber, IsAmount, IsAlpha, Strip;
    var tokens := [r.no, r.description, r.qty, r.unit] + tail;
    assert tokens[5] == tail[1];
    assert !LooksLikeStart(tokens, 5);
  }

  lemma NotANumber(p: Patterns, tokens: seq<string>, i: nat)
    requires i < |tokens| && !IsNumber(tokens[i])
    ensures !IsRow(p, tokens, i)
  {
  }

  lemma NoUnitAfter(p: Patterns, tokens: seq<string>, i: nat)
    requires i + 4 < |tokens| ==> !IsAmount(tokens[i + 2]) || !IsAlpha(tokens[i + 3])
    ensures !IsRow(p, tokens, i)
  {
    hide IsNumber, IsAmount, IsAlpha, AmountAt;
  }

  lemma NoAmountAfter(p: Patterns, tokens: seq<string>, i: nat)
    requires i + 5 < |tokens| && tokens[i + 5] != "" && !IsNumber(tokens[i + 5]) && !IsAmount(tokens[i + 5])
      && !p.footer(tokens[i + 5])
    ensures !IsRow(p, tokens, i)
  {
    hide IsNumber, IsAmount, IsAlpha, Strip;
  }

  // Only the number starts an item inside a block, whether six, five or four of its tokens are left.

  lemma QuietSix(p: Patterns, r: Row, tail: seq<string>, i: nat)
    requires Printable(p, r) && Tail(p, tail) && Plain(p, tail)
    requires 0 < i < 6
    ensures !IsRow(p, [r.no, r.description, r.qty, r.unit, r.price, r.amount] + tail, i)
  {
    hide IsNumber, IsAmount, IsAlpha, Strip, IsRow, Printable, Plain;
    var tokens := [r.no, r.description, r.qty, r.unit, r.price, r.amount] + tail;
    if i >= 4 {
      QuietBehind(p, r, tail, i);
    } else {
      Distinct(p, r);
      if i == 2 {
        assert tokens[5] == r.amount;
        NoUnitAfter(p, tokens, i);
      } else {
        NotANumber(p, tokens, i);
      }
    }
  }

  lemma QuietBehind(p: Patterns, r: Row, tail: seq<string>, i: nat)
    requires Printable(p, r) && Tail(p, tail) && Plain(p, tail)
    requires i == 4 || i == 5
    ensures !IsRow(p, [r.no, r.description, r.qty, r.unit, r.price, r.amount] + tail, i)
  {
    hide IsNumber, IsAmount, IsAlpha, Strip, IsRow, Printable;
    var tokens := [r.no, r.description, r.qty, r.unit, r.price, r.amount] + tail;
    if i == 4 && tail != [] {
      assert tokens[9] == tail[3];
      NoAmountAfter(p, tokens, i);
    } else {
      assert tail != [] ==> tokens[7] == tail[1];
      NoUnitAfter(p, tokens, i);
    }
  }

  lemma QuietFive(p: Patterns, r: Row, tail: seq<string>, i: nat)
    requires Printable(p, r) && Tail(p, tail)
    requires 0 < i < 5
    ensures !IsRow(p, [r.no, r.description, r.qty, r.unit, r.price] + tail, i)
  {
    hide IsRow, Tail, IsNumber, IsAmount, IsAlpha, Strip;
    var tokens := [r.no, r.description, r.qty, r.unit, r.price] + tail;
    if i == 1 || i == 3 {
      Distinct(p, r);
      NotANumber(p, tokens, i);
    } else {
      hide Printable;
      assert tokens[5..] == tail;
      QuietCollapsed(p, tokens, i);
    }
  }

  lemma QuietCollapsed(p: Patterns, tokens: seq<string>, i: nat)
    requires |tokens| >= 5 && Tail(p, tokens[5..])
    requires i == 2 || i == 4
    ensures !IsRow(p, tokens, i)
  {
    hide IsRow, IsNumber, IsAmount, IsAlpha, Strip;
    var tail := tokens[5..];
    assert tail != [] ==> tokens[5] == tail[0] && tokens[6] == tail[1];
    NoUnitAfter(p, tokens, i);
  }

  lemma QuietFour(p: Patterns, r: Row, tail: seq<string>, i: nat)
    requires Printable(p, r) && Tail(p, tail) && Plain(p, tail) && tail != []
    requires 0 < i < 4
    ensures !IsRow(p, [r.no, r.description, r.qty, r.unit] + tail, i)
  {
    hide IsRow, Tail, Plain, IsNumber, IsAmount, IsAlpha, Strip;
    var tokens := [r.no, r.description, r.qty, r.unit] + tail;
    if i == 1 || i == 3 {
      Distinct(p, r);
      NotANumber(p, tokens, i);
    } else {
      hide Printable;
      assert tokens[4..] == tail;
      QuietSwallowed(p, tokens);
    }
  }

  lemma QuietSwallowed(p: Patterns, tokens: seq<string>)
    requires |tokens| > 4 && Tail(p, tokens[4..]) && Plain(p, tokens[4..])
    ensures !IsRow(p, tokens, 2)
  {
    hide IsRow, IsNumber, IsAmount, IsAlpha, Strip;
    assert tokens[7] == tokens[4..][3];
    NoAmountAfter(p, tokens, 2);
  }

  lemma QuietInside(p: Patterns, rows: seq<Row>, tail: seq<string>, i: nat)
    requires rows != [] && Printable(p, rows[0]) && Tail(p, tail) && Plain(p, tail)
    requires tail == [] ==> !Collides(rows)
    requires 0 < i < |Block(rows)|
    ensures !IsRow(p, Block(rows) + tail, i)
  {
    hide IsRow, Printable, Tail, Plain;
    var r := rows[0];
    if Collides(rows) && r.price == r.amount {
      assert Block(rows) == [r.no, r.description, r.qty, r.unit];
      QuietFour(p, r, tail, i);
    } else if Collides(rows) || r.price == r.amount {
      assert Block(rows) == [r.no, r.description, r.qty, r.unit, r.price];
      QuietFive(p, r, tail, i);
    } else {
      assert Block(rows) == [r.no, r.description, r.qty, r.unit, r.price, r.amount];
      QuietSix(p, r, tail, i);
    }
  }

  /** The first token of a block is read as the row the block stands for. */
  lemma ReadFirst(p: Patterns, rows: seq<Row>, tail: seq<string>)
    requires rows != [] && Printable(p, rows[0]) && Tail(p, tail) && Plain(p, tail)
    requires tail == [] ==> !Collides(rows)
    ensures var tokens := Block(rows) + tail;
      && (IsRow(p, tokens, 0) <==> FirstKept(rows) != [])
      && (IsRow(p, tokens, 0) ==> AmountAt(p, tokens, 0) == FirstKept(rows)[0].amount)
  {
    var r := rows[0];
    hide IsRow, AmountAt, Strip, IsAmount, IsAlpha, IsNumber, Printable;
    if Collides(rows) && r.price == r.amount {
      assert Block(rows) == [r.no, r.description, r.qty, r.unit];
      ReadSwallowed(p, r, tail);
    } else if Collides(rows) || r.price == r.amount {
      assert Block(rows) == [r.no, r.description, r.qty, r.unit, r.price];
      ReadCollapsed(p, r, tail);
    } else {
      assert Block(rows) == [r.no, r.description, r.qty, r.unit, r.price, r.amount];
      ReadFull(p, r, tail);
    }
  }

  lemma FirstItem(p: Patterns, rows: seq<Row>, tail: seq<string>)
    requires rows != [] && Printable(p, rows[0]) && Tail(p, tail) && Plain(p, Block(rows) + tail) && Plain(p, tail)
    requires tail == [] ==> !Collides(rows)
    requires IsRow(p, Block(rows) + tail, 0)
    ensures FirstKept(rows) != []
    ensures var tokens := Block(rows) + tail;
      tokens[0] == rows[0].no && ItemAt(p, tokens, 0) == FirstKept(rows)[0].Printed()
  {
    var r, tokens := rows[0], Block(rows) + tail;
    ReadFirst(p, rows, tail);
    NoCurrency(p, tokens, 6, 10);
    PlainMoney(p, r.price);
    PlainMoney(p, r.amount);
    hide IsRow, AmountAt, Currency, Money, Strip, IsAmount, IsAlpha, IsNumber, Printable, Plain, Tail, LooksLikeStart;
    assert tokens[0] == r.no && tokens[1] == r.description && tokens[2] == r.qty && tokens[3] == r.unit;
    assert FirstKept(rows) != [];
    assert |Prices(r.price, r.amount, Collides(rows))| > 0 && tokens[4] == r.price;
  }

  /** The numbers of rows, as the expected-count check reads them. */
  function RowNumbers(rows: seq<Row>): seq<nat>
    requires forall k :: 0 <= k < |rows| ==> IsNumber(rows[k].no)
  {
    if rows == [] then [] else
    assert IsNumber(rows[0].no);
    [Value(rows[0].no)] + RowNumbers(rows[1..])
  }

  lemma {:induction false} SkipQuiet(p: Patterns, tokens: seq<string>, i: nat, stop: nat)
    requires i <= stop <= |tokens|
    requires forall k :: i <= k < stop ==> !IsRow(p, tokens, k)
    ensures Extract(p, tokens, i) == Extract(p, tokens, stop)
    ensures Numbers(p, tokens, i) == Numbers(p, tokens, stop)
    decreases stop - i
  {
    hide IsRow, ItemAt;
    if i < stop { SkipQuiet(p, tokens, i + 1, stop); }
  }

  /** Behind its first token a block reads nothing, and what follows is read as if the block were not there. */
  lemma SkipBlock(p: Patterns, rows: seq<Row>, tail: seq<string>)
    requires rows != [] && Printable(p, rows[0]) && Tail(p, tail) && Plain(p, tail)
    requires tail == [] ==> !Collides(rows)
    ensures Extract(p, Block(rows) + tail, 1) == Extract(p, tail, 0)
    ensures Numbers(p, Block(rows) + tail, 1) == Numbers(p, tail, 0)
  {
    var tokens, w := Block(rows) + tail, |Block(rows)|;
    hide IsRow, ItemAt, Tail, Plain, Printable, Prices, Extract, Numbers;
    forall i | 0 < i < w ensures !IsRow(p, tokens, i) {
      QuietInside(p, rows, tail, i);
    }
    assert 1 <= w;
    hide Block;
    SkipQuiet(p, tokens, 1, w);
    ExtractSuffix(p, Block(rows), tail, 0);
  }

  /** The first token of a block reads as the block's kept row. */
  lemma FirstReads(p: Patterns, rows: seq<Row>, tail: seq<string>)
    requires rows != [] && Printable(p, rows[0]) && Tail(p, tail) && Plain(p, Block(rows) + tail) && Plain(p, tail)
    requires tail == [] ==> !Collides(rows)
    ensures IsNumber(rows[0].no)
    ensures var tokens := Block(rows) + tail;
      && (if IsRow(p, tokens, 0) then [ItemAt(p, tokens, 0)] else []) == Printed(FirstKept(rows))
      && (if IsRow(p, tokens, 0) then [Value(tokens[0])] else []) == RowNumbers(FirstKept(rows))
  {
    var tokens := Block(rows) + tail;
    assert IsNumber(rows[0].no);
    hide IsRow, ItemAt, Tail, Plain, Printable, Block, IsNumber, Value, Collides;
    ReadFirst(p, rows, tail);
    if IsRow(p, tokens, 0) {
      FirstItem(p, rows, tail);
    }
  }

  /** A block reads as its kept row, and reading goes on behind it. */
  lemma ExtractBlock(p: Patterns, rows: seq<Row>, tail: seq<string>)
    requires rows != [] && Printable(p, rows[0]) && Tail(p, tail) && Plain(p, Block(rows) + tail) && Plain(p, tail)
    requires tail == [] ==> !Collides(rows)
    ensures IsNumber(rows[0].no)
    ensures Extract(p, Block(rows) + tail, 0) == Printed(FirstKept(rows)) + Extract(p, tail, 0)
    ensures Numbers(p, Block(rows) + tail, 0) == RowNumbers(FirstKept(rows)) + Numbers(p, tail, 0)
  {
    FirstReads(p, rows, tail);
    SkipBlock(p, rows, tail);
    ReadStep(p, Block(rows) + tail, 0);
    hide *;
  }

  /** For all printable rows, exactly the kept rows are read back from the de-duplicated tokens, number for number. */
  lemma {:induction false} ReadsKept(p: Patterns, rows: seq<Row>)
    requires PrintableRows(p, rows)
    ensures forall k :: 0 <= k < |Kept(rows)| ==> IsNumber(Kept(rows)[k].no)
    ensures Extract(p, Dedupe(Flatten(rows)), 0) == Printed(Kept(rows))
    ensures Numbers(p, Dedupe(Flatten(rows)), 0) == RowNumbers(Kept(rows))
  {
    hide Extract, Numbers, Plain, Tail, IsNumber, IsAmount, IsAlpha, Strip, Flatten, Dedupe;
    if rows == [] {
      EmptyTokens();
      NothingBehind(p, []);
    } else {
      var rest := rows[1..];
      var tail := Dedupe(Flatten(rest));
      DedupeRows(p, rows);
      TailOfRows(p, rest);
      PlainRows(p, rest);
      PlainRows(p, rows);
      assert Printable(p, rows[0]);
      hide Printable, Block;
      ExtractBlock(p, rows, tail);
      ReadsKept(p, rest);
      assert Kept(rows) == FirstKept(rows) + Kept(rest);
    }
  }

  predicate NoCollision(rows: seq<Row>) {
    forall k :: 0 <= k < |rows| - 1 ==> rows[k].amount != rows[k + 1].no
  }

  lemma {:induction false} KeptAll(rows: seq<Row>)
    ensures |Printed(rows)| == |rows| && |Kept(rows)| <= |rows|
    ensures NoCollision(rows) ==> Kept(rows) == rows
    ensures Printed(Kept(rows)) == Printed(rows) <==> NoCollision(rows)
  {
    if rows != [] {
      var rest := rows[1..];
      KeptAll(rest);
      PrintedLength(Kept(rest));
      PrintedLength(Kept(rows));
      assert NoCollision(rows) <==> !Collides(rows) && NoCollision(rest) by {
        if NoCollision(rows) {
          forall k | 0 <= k < |rest| - 1 ensures rest[k].amount != rest[k + 1].no {
            assert rows[k + 1].amount != rows[k + 1 + 1].no;
          }
        }
        if !Collides(rows) && NoCollision(rest) {
          forall k | 0 <= k < |rows| - 1 ensures rows[k].amount != rows[k + 1].no {
            if k > 0 { assert rest[k - 1].amount != rest[k].no; }
          }
        }
      }
      if Printed(Kept(rows)) == Printed(rows) {
        assert |Kept(rows)| == |rows|;
        assert Printed(Kept(rows))[1..] == Printed(Kept(rest));
        assert Printed(rows)[1..] == Printed(rest);
      }
    }
  }

  lemma {:induction false} PrintedLength(rows: seq<Row>)
    ensures |Printed(rows)| == |rows|
  {
    if rows != [] { PrintedLength(rows[1..]); }
  }

  /**
   * For every list of printable rows, reading the de-duplicated tokens restores all rows, also those whose equal price
   * and amount were collapsed into one token, if and only if no amount equals the number of the next row.
   */
  lemma RoundTrip(p: Patterns, rows: seq<Row>)
    requires PrintableRows(p, rows)
    ensures Extract(p, Dedupe(Flatten(rows)), 0) == Printed(Kept(rows))
    ensures Extract(p, Dedupe(Flatten(rows)), 0) == Printed(rows) <==> NoCollision(rows)
  {
    hide Extract, Dedupe, Flatten, Printable;
    ReadsKept(p, rows);
    KeptAll(rows);
  }

  lemma {:induction false} MaxOfRowNumbers(rows: seq<Row>, no: nat)
    requires forall k :: 0 <= k < |rows| ==> rows[k].no == Decimal(no + k)
    ensures forall k :: 0 <= k < |rows| ==> IsNumber(rows[k].no)
    ensures Max(RowNumbers(rows)) == if rows == [] then 0 else no + |rows| - 1
  {
    if rows != [] {
      ValueOfDecimal(no);
      assert rows[0].no == Decimal(no + 0);
      forall k | 0 <= k < |rows[1..]| ensures rows[1..][k].no == Decimal(no + 1 + k) {
        assert rows[1..][k] == rows[k + 1];
        assert no + 1 + k == no + (k + 1);
      }
      MaxOfRowNumbers(rows[1..], no + 1);
      hide Decimal, Value;
      assert RowNumbers(rows) == [no] + RowNumbers(rows[1..]);
      assert RowNumbers(rows)[1..] == RowNumbers(rows[1..]);
    }
  }

  /** Rows numbered 1..n and read back whole raise no missing-line-items warning: both scans count n. */
  lemma ExpectedCountIsRowCount(p: Patterns, rows: seq<Row>)
    requires PrintableRows(p, rows) && NoCollision(rows)
    requires forall k :: 0 <= k < |rows| ==> rows[k].no == Decimal(1 + k)
    ensures var tokens := Dedupe(Flatten(rows));
      && Max(Numbers(p, tokens, 0)) == |rows| == |Extract(p, tokens, 0)|
      && !LineItemsMissing(Max(Numbers(p, tokens, 0)), |Extract(p, tokens, 0)|)
  {
    hide Extract, Numbers, Dedupe, Flatten, Printable, Decimal, Max, RowNumbers, IsNumber;
    ReadsKept(p, rows);
    KeptAll(rows);
    MaxOfRowNumbers(rows, 1);
  }
}
