/** The round trip of RFQ rows whose descriptions and codes are wrapped over any number of tokens. */
module RfqWrapped {
  import opened Text
  import opened VerticalTokens
  import opened RfqTable
  import opened RfqRoundTrip
  import opened RfqSearch

  ghost predicate AllReadable(rows: seq<Wrapped>) { forall k :: 0 <= k < |rows| ==> rows[k].Readable() }

  /** The cells of a row, one token each, and the item they should be read as. */
  function Cells(w: Wrapped): seq<string> { w.Tokens() }

  function ItemOf(w: Wrapped, no: nat): Item
    requires w.code != []
  {
    w.Row(Decimal(no))
  }

  function Behind(no: string, cells: seq<string>, rest: seq<string>): seq<string> { [no] + (cells + rest) }

  /** The rows as printed, each behind its number. */
  function Stream(rows: seq<Wrapped>, no: nat): seq<string> {
    if rows == [] then [] else Behind(Decimal(no), Cells(rows[0]), Stream(rows[1..], no + 1))
  }

  /** From position `s` on, the tokens are `rest`. */
  predicate Continued(tokens: seq<string>, s: nat, rest: seq<string>) { s <= |tokens| && tokens[s..] == rest }

  /** The items the rows should come back as. */
  function Rows(rows: seq<Wrapped>, no: nat): seq<Item>
    requires forall k :: 0 <= k < |rows| ==> rows[k].code != []
  {
    if rows == [] then [] else [ItemOf(rows[0], no)] + Rows(rows[1..], no + 1)
  }

  /** Where the rows stand in the stream that starts at `s`. */
  function Placed(rows: seq<Wrapped>, s: nat, no: nat): seq<Found>
    requires forall k :: 0 <= k < |rows| ==> rows[k].code != []
  {
    if rows == [] then [] else
    var e := s + 1 + |Cells(rows[0])|;
    [Found(ItemOf(rows[0], no), s, e)] + Placed(rows[1..], e, no + 1)
  }

  /** In front of a cell that happens to be the next number nothing can be read. */
  predicate NoEarlyEnd(cells: seq<string>, next: string) {
    forall i :: 0 <= i < |cells| && cells[i] == next ==> Unreadable(cells[..i])
  }

  /** The number that follows does not end the row early; behind the last row it must not occur in it at all. */
  predicate EndsWell(cells: seq<string>, next: string, last: bool) {
    if last then next !in cells else NoEarlyEnd(cells, next)
  }

  /** Rows the search can tell apart. */
  predicate Separable(rows: seq<Wrapped>, no: nat) {
    rows != [] ==> EndsWell(Cells(rows[0]), Decimal(no + 1), |rows| == 1) && Separable(rows[1..], no + 1)
  }

  /** The back-off: candidate ends that do not parse are passed over. */
  lemma {:induction false} PassOver(tokens: seq<string>, no: string, next: string, start: nat, i: nat, stop: nat)
    requires start < i <= stop <= |tokens|
    requires forall k :: i <= k < stop && tokens[k] == next ==> ParseSegment(no, tokens[start + 1..k]).None?
    ensures FirstParse(tokens, no, next, start, i) == FirstParse(tokens, no, next, start, stop)
    decreases stop - i
  {
    hide ParseSegment;
    if i < stop { PassOver(tokens, no, next, start, i + 1, stop); }
  }

  /** The first candidate end in front of `stop` that parses, if there is one, ends the item there. */
  lemma {:induction false} FirstParseEarly(tokens: seq<string>, no: string, next: string, start: nat, i: nat, stop: nat)
    requires start < i <= stop <= |tokens|
    requires exists k: nat :: i <= k < stop && tokens[k] == next && ParseSegment(no, tokens[start + 1..k]).Some?
    ensures var r := FirstParse(tokens, no, next, start, i); r.Some? && r.value.end < stop
    decreases stop - i
  {
    hide ParseSegment;
    if !(tokens[i] == next && ParseSegment(no, tokens[start + 1..i]).Some?) {
      FirstParseEarly(tokens, no, next, start, i + 1, stop);
    }
  }

  lemma CutInside(tokens: seq<string>, no: string, s: nat, cells: seq<string>, i: nat)
    requires i < |cells| && s + 1 + |cells| <= |tokens| && tokens[s + 1..s + 1 + |cells|] == cells
    ensures tokens[s + 1 + i] == cells[i] && tokens[s + 1..s + 1 + i] == cells[..i]
    ensures ParseSegment(no, tokens[s + 1..s + 1 + i]).None? <==> Unreadable(cells[..i])
  {
    UnreadableIff(no, cells[..i]);
    hide ParseSegment, Unreadable;
    assert tokens[s + 1..s + 1 + i] == cells[..i];
  }

  /** Cells between their number and the next are read whole if and only if none of them ends the item early. */
  lemma ReadBetween(tokens: seq<string>, no: string, next: string, s: nat, cells: seq<string>, item: Item)
    requires ParseSegment(no, cells) == Some(item)
    requires s + 1 + |cells| < |tokens| && tokens[s + 1..s + 1 + |cells|] == cells && tokens[s + 1 + |cells|] == next
    ensures ItemAt(tokens, no, next, s) == Some(Found(item, s, s + 1 + |cells|)) <==> NoEarlyEnd(cells, next)
  {
    hide ParseSegment, Unreadable;
    var e := s + 1 + |cells|;
    ReadTo(tokens, no, next, s, e, item);
    if NoEarlyEnd(cells, next) {
      forall k | s + 1 <= k < e && tokens[k] == next ensures ParseSegment(no, tokens[s + 1..k]).None? {
        CutInside(tokens, no, s, cells, k - s - 1);
      }
      PassOver(tokens, no, next, s, s + 1, e);
    } else {
      var i :| 0 <= i < |cells| && cells[i] == next && !Unreadable(cells[..i]);
      CutInside(tokens, no, s, cells, i);
      FirstParseEarly(tokens, no, next, s, s + 1, e);
    }
  }

  lemma ReadTo(tokens: seq<string>, no: string, next: string, s: nat, e: nat, item: Item)
    requires s < e < |tokens| && tokens[e] == next && ParseSegment(no, tokens[s + 1..e]) == Some(item)
    ensures ItemAt(tokens, no, next, s) == FirstParse(tokens, no, next, s, s + 1)
    ensures FirstParse(tokens, no, next, s, e) == Some(Found(item, s, e))
  {
    hide ParseSegment;
  }

  /** The last cells are read whole if and only if the number after theirs does not occur among them. */
  lemma ReadAtEnd(tokens: seq<string>, no: string, next: string, s: nat, cells: seq<string>, item: Item)
    requires ParseSegment(no, cells) == Some(item) && s < |tokens| && tokens[s + 1..] == cells
    ensures ItemAt(tokens, no, next, s) == Some(Found(item, s, |tokens|)) <==> next !in cells
  {
    hide ParseSegment;
    forall k | s + 1 <= k < |tokens| ensures tokens[k] == cells[k - s - 1] {}
    if next in cells {
      var k :| 0 <= k < |cells| && cells[k] == next;
      assert tokens[s + 1 + k] == next;
    }
  }

  lemma SliceOfSuffix(tokens: seq<string>, s: nat, a: nat, b: nat)
    requires a <= b && s + b <= |tokens|
    ensures tokens[s + a..s + b] == tokens[s..][a..b]
  {
  }

  lemma SuffixParts(tokens: seq<string>, s: nat, no: string, cells: seq<string>, rest: seq<string>)
    requires Continued(tokens, s, Behind(no, cells, rest))
    ensures var e := s + 1 + |cells|;
      && e + |rest| == |tokens| && tokens[s] == no && tokens[s + 1..e] == cells && Continued(tokens, e, rest)
      && (rest != [] ==> tokens[e] == rest[0]) && (rest == [] ==> tokens[s + 1..] == cells)
  {
    var stream, e := [no] + (cells + rest), s + 1 + |cells|;
    assert |stream| == |tokens| - s;
    assert tokens[s] == tokens[s..][0];
    SliceOfSuffix(tokens, s, 1, 1 + |cells|);
    SliceOfSuffix(tokens, s, 1 + |cells|, |stream|);
    assert stream[1..1 + |cells|] == cells && stream[1 + |cells|..|stream|] == rest;
    assert tokens[e..] == tokens[s + (1 + |cells|)..s + |stream|];
    if rest == [] { assert tokens[s + 1..] == tokens[s + 1..e]; }
  }

  lemma FirstItem(tokens: seq<string>, s: nat, no: string, next: string, cells: seq<string>, rest: seq<string>,
      item: Item)
    requires Continued(tokens, s, Behind(no, cells, rest)) && ParseSegment(no, cells) == Some(item)
    requires rest == [] || rest[0] == next
    ensures var e := s + 1 + |cells|;
      && s < e <= |tokens| && tokens[s] == no && Continued(tokens, e, rest)
      && (ItemAt(tokens, no, next, s) == Some(Found(item, s, e)) <==> EndsWell(cells, next, rest == []))
  {
    hide *;
    SuffixParts(tokens, s, no, cells, rest);
    if rest == [] {
      ReadAtEnd(tokens, no, next, s, cells, item);
    } else {
      ReadBetween(tokens, no, next, s, cells, item);
    }
    assert EndsWell(cells, next, rest == [])
      <==> if rest == [] then next !in cells else NoEarlyEnd(cells, next) by { EndsWellIs(cells, next, rest == []); }
  }

  lemma EndsWellIs(cells: seq<string>, next: string, last: bool)
    ensures EndsWell(cells, next, last) <==> if last then next !in cells else NoEarlyEnd(cells, next)
  {
    hide NoEarlyEnd;
  }

  lemma StreamHead(rows: seq<Wrapped>, no: nat)
    requires rows != []
    ensures var cells, rest := Cells(rows[0]), Stream(rows[1..], no + 1);
      && Stream(rows, no) == Behind(Decimal(no), cells, rest) && (rest == [] <==> |rows| == 1)
        && (rest == [] || rest[0] == Decimal(no + 1))
  {
    hide Cells, Decimal;
    if |rows| == 1 { assert rows[1..] == []; }
  }

  lemma CellsParse(w: Wrapped, no: nat)
    requires w.Readable()
    ensures w.code != [] && ParseSegment(Decimal(no), Cells(w)) == Some(ItemOf(w, no))
  {
    ParseComplete(Decimal(no), w);
    hide ParseSegment, Decimal;
  }

  lemma FirstRow(tokens: seq<string>, s: nat, rows: seq<Wrapped>, no: nat)
    requires rows != [] && rows[0].Readable() && Continued(tokens, s, Stream(rows, no))
    ensures var e := s + 1 + |Cells(rows[0])|;
      && rows[0].code != [] && s < e <= |tokens| && tokens[s] == Decimal(no)
        && Continued(tokens, e, Stream(rows[1..], no + 1))
      && (ItemAt(tokens, Decimal(no), Decimal(no + 1), s) == Some(Found(ItemOf(rows[0], no), s, e))
          <==> EndsWell(Cells(rows[0]), Decimal(no + 1), |rows| == 1))
  {
    hide *;
    CellsParse(rows[0], no);
    StreamHead(rows, no);
    FirstItem(tokens, s, Decimal(no), Decimal(no + 1), Cells(rows[0]), Stream(rows[1..], no + 1), ItemOf(rows[0], no));
  }

  lemma FoundHere(tokens: seq<string>, token: string, s: nat)
    requires s < |tokens| && tokens[s] == token
    ensures FindFrom(tokens, token, s) == s
  {
  }

  lemma NothingStreamed(no: nat)
    ensures Stream([], no) == []
  {
  }

  lemma NothingLeft(tokens: seq<string>, s: nat, no: nat)
    requires Continued(tokens, s, [])
    ensures Extract(tokens, s, no) == []
  {
    assert s == |tokens|;
    hide Decimal, ItemAt;
  }

  /** What the search makes of a number: the item that starts there, or none that does. */
  lemma ExtractHead(tokens: seq<string>, s: nat, no: nat)
    requires s < |tokens| && tokens[s] == Decimal(no)
    ensures var at, found := ItemAt(tokens, Decimal(no), Decimal(no + 1), s), Extract(tokens, s, no);
      if at.Some? then found == [at.value] + Extract(tokens, at.value.end, no + 1)
      else found == [] || found[0].start > s
  {
    hide Decimal, ItemAt, FindFrom;
    FoundHere(tokens, Decimal(no), s);
    ExtractLater(tokens, s + 1, no);
  }

  lemma ExtractLater(tokens: seq<string>, from: nat, no: nat)
    ensures Extract(tokens, from, no) == [] || Extract(tokens, from, no)[0].start >= from
  {
    hide *;
    ExtractNumbers(tokens, from, no);
    if Extract(tokens, from, no) != [] {
      NumberedAt(tokens, Extract(tokens, from, no), from, no, 0);
      ReadBehind(tokens, Extract(tokens, from, no), from, no);
    }
  }

  lemma ReadBehind(tokens: seq<string>, found: seq<Found>, from: nat, no: nat)
    requires found != [] && ReadAs(tokens, found[0], Bound(found, from, 0), no + 0)
    ensures found[0].start >= from
  {
    hide Decimal, ParseSegment;
  }

  lemma HeadAndTail(f: Found, a: seq<Found>, g: Found, b: seq<Found>)
    ensures [f] + a == [g] + b <==> f == g && a == b
  {
    if [f] + a == [g] + b {
      assert ([f] + a)[0] == ([g] + b)[0] && ([f] + a)[1..] == ([g] + b)[1..];
    }
  }

  /** The search reads every row from its own tokens if and only if the rows are separable. */
  lemma {:induction false} ReadStreamIff(tokens: seq<string>, s: nat, rows: seq<Wrapped>, no: nat)
    requires AllReadable(rows) && Continued(tokens, s, Stream(rows, no))
    ensures Extract(tokens, s, no) == Placed(rows, s, no) <==> Separable(rows, no)
    decreases |rows|
  {
    hide Cells, ItemOf, Decimal, ItemAt, Extract, EndsWell, Stream, Continued, ParseSegment;
    if rows == [] {
      NothingStreamed(no);
      NothingLeft(tokens, s, no);
    } else {
      var e := s + 1 + |Cells(rows[0])|;
      FirstRow(tokens, s, rows, no);
      ReadStreamIff(tokens, e, rows[1..], no + 1);
      ExtractHead(tokens, s, no);
      var first, at := Found(ItemOf(rows[0], no), s, e), ItemAt(tokens, Decimal(no), Decimal(no + 1), s);
      assert Placed(rows, s, no) == [first] + Placed(rows[1..], e, no + 1);
      if at.Some? {
        HeadAndTail(at.value, Extract(tokens, at.value.end, no + 1), first, Placed(rows[1..], e, no + 1));
      }
    }
  }

  lemma ItemsCons(f: Found, rest: seq<Found>)
    ensures Items([f] + rest) == [f.item] + Items(rest)
  {
  }

  lemma PlacedStep(rows: seq<Wrapped>, s: nat, no: nat)
    requires AllReadable(rows) && rows != []
    ensures var e := s + 1 + |Cells(rows[0])|;
      && AllReadable(rows[1..]) && rows[0].code != [] && (forall k :: 0 <= k < |rows[1..]| ==> rows[1..][k].code != [])
      && Placed(rows, s, no) == [Found(ItemOf(rows[0], no), s, e)] + Placed(rows[1..], e, no + 1)
      && Rows(rows, no) == [ItemOf(rows[0], no)] + Rows(rows[1..], no + 1)
      && s + |Stream(rows, no)| == e + |Stream(rows[1..], no + 1)| && (|rows| == 1 ==> |Stream(rows[1..], no + 1)| == 0)
  {
    hide Cells, ItemOf, Decimal;
  }

  lemma NonePlaced(s: nat, no: nat)
    ensures Placed([], s, no) == [] && Items([]) == Rows([], no)
  {
  }

  /** The last row ends where the stream does, and all items together are the rows. */
  lemma {:induction false} PlacedShape(rows: seq<Wrapped>, s: nat, no: nat)
    requires AllReadable(rows)
    ensures var placed := Placed(rows, s, no);
      |placed| == |rows| && Items(placed) == Rows(rows, no)
        && (rows != [] ==> placed[|rows| - 1].end == s + |Stream(rows, no)|)
  {
    hide *;
    if rows == [] {
      NonePlaced(s, no);
    } else {
      var e := s + 1 + |Cells(rows[0])|;
      PlacedStep(rows, s, no);
      PlacedShape(rows[1..], e, no + 1);
      ItemsCons(Found(ItemOf(rows[0], no), s, e), Placed(rows[1..], e, no + 1));
    }
  }

  /**
   * Any number of rows, each of any number of tokens, printed one token a line: every row is read from its own tokens
   * if and only if no two neighbours are equal, no number that occurs inside a row ends it early, and the last row does
   * not hold the number that would follow. The items are then exactly the rows.
   */
  lemma WrappedRoundTripIff(rows: seq<Wrapped>)
    requires AllReadable(rows)
    ensures var tokens := Dedupe(Stream(rows, 1));
      && (Extract(tokens, 0, 1) == Placed(rows, 0, 1) <==> Separable(rows, 1) && NoRepeats(Stream(rows, 1)))
      && (Separable(rows, 1) && NoRepeats(Stream(rows, 1)) ==> SegmentedItems(tokens) == Rows(rows, 1))
  {
    var stream := Stream(rows, 1);
    var tokens := Dedupe(stream);
    DedupeFixes(stream);
    DedupeShrinks(stream);
    PlacedShape(rows, 0, 1);
    hide Separable, Stream, Dedupe, Extract, Placed, NoRepeats;
    assert tokens[0..] == tokens;
    if NoRepeats(stream) {
      ReadStreamIff(tokens, 0, rows, 1);
    } else if Extract(tokens, 0, 1) == Placed(rows, 0, 1) && rows != [] {
      EndInside(tokens, |rows| - 1);
      DedupeOfSameLength(stream);
    }
  }

  lemma EndInside(tokens: seq<string>, k: nat)
    requires k < |Extract(tokens, 0, 1)|
    ensures Extract(tokens, 0, 1)[k].end <= |tokens|
  {
    hide Extract, ParseSegment, Decimal;
    ExtractNumbers(tokens, 0, 1);
    var found := Extract(tokens, 0, 1);
    assert ReadAs(tokens, found[k], Bound(found, 0, k), 1 + k);
  }

  /**
   * No amount in front of a unit before the row's own, and no next number behind it: then nothing ends the row early.
   */
  lemma PairFree(w: Wrapped, next: string)
    requires w.Readable() && IsNumber(next) && next !in w.trailer
    requires forall k :: 0 < k <= |w.description + w.code| ==> !IsQtyUnit(Cells(w), k)
    ensures NoEarlyEnd(Cells(w), next)
  {
    hide IsAmount, IsUnit, Continues, IsNumber;
    var cells, q := Cells(w), |w.description + w.code|;
    UnitIsNotAmount(w.unit);
    NumberIsAmount(next);
    assert cells[q] == w.qty && cells[q + 1] == w.unit;
    forall i | 0 <= i < |cells| && cells[i] == next ensures Unreadable(cells[..i]) {
      InTrailer(w, i);
      assert i <= q;
      forall k | 0 < k < i ensures !IsQtyUnit(cells[..i], k) { assert !IsQtyUnit(cells, k); }
    }
  }

  lemma InTrailer(w: Wrapped, i: nat)
    requires i < |Cells(w)|
    ensures i > |w.description + w.code| + 1 ==> Cells(w)[i] in w.trailer
  {
    var q := |w.description + w.code|;
    if i > q + 1 { assert Cells(w)[i] == w.trailer[i - q - 2]; }
  }
}
