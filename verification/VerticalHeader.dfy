/** From the lines of an attachment to the tokens of a vertical table: the header search, the window, the footer. */
module VerticalHeader {
  import opened Text
  import opened VerticalTokens
  import opened MailSchemas

  /**
   * A header search: the label it starts at, the labels it needs within `width` lines, the label it ends with, and how
   * many lines follow.
   */
  datatype Header = Header(first: string, labels: set<string>, last: string, width: nat, body: nat)

  const QUOTE_ITEMS := Header("description", {"description", "qty", "unit", "u/price", "amount"}, "amount", 16, 79)
  const QUOTE_NUMBERS := Header("no", {"no", "description", "qty", "unit", "u/price", "amount"}, "amount", 18, 79)
  const RFQ_ITEMS := Header("no", {"no", "description", "code", "qty", "unit"}, "unit", 12, 119)

  function Least(a: nat, b: nat): nat { if a < b then a else b }

  predicate Labelled(lines: seq<string>, i: nat, stop: nat, field: string) {
    exists j :: i <= j < stop && j < |lines| && Fold(lines[j]) == field
  }

  /** The header starts at line `i`. */
  predicate Opens(h: Header, lines: seq<string>, i: nat) {
    i < |lines| && Fold(lines[i]) == h.first && forall l :: l in h.labels ==> Labelled(lines, i, i + h.width, l)
  }

  /** The last line in `i .. stop` with a label, or `i`. */
  function LastLabelled(lines: seq<string>, i: nat, stop: nat, field: string): (r: nat)
    requires i <= stop
    ensures i <= r && (r < stop || r == i)
  {
    if stop == i then i
    else if stop - 1 < |lines| && Fold(lines[stop - 1]) == field then stop - 1
    else LastLabelled(lines, i, stop - 1, field)
  }

  /** The line a header ends at, searching from line `i`. */
  function HeaderEnd(h: Header, lines: seq<string>, i: nat): Option<nat>
    decreases |lines| - i
  {
    if i >= |lines| then None
    else if Opens(h, lines, i) then Some(LastLabelled(lines, i, Least(i + h.width, |lines|), h.last))
    else HeaderEnd(h, lines, i + 1)
  }

  /** At most `n` lines from `i` on, up to a footer. */
  function Body(footer: string -> bool, lines: seq<string>, i: nat, n: nat): seq<string>
    decreases n
  {
    if n == 0 || i >= |lines| || footer(lines[i]) then [] else [lines[i]] + Body(footer, lines, i + 1, n - 1)
  }

  /** The tokens of the table, None without a header. */
  function TableTokens(h: Header, footer: string -> bool, lines: seq<string>): Option<seq<string>> {
    match HeaderEnd(h, lines, 0)
    case None => None
    case Some(e) => Some(Dedupe(Body(footer, lines, e + 1, h.body)))
  }

  method ReadTokens(h: Header, footer: string -> bool, lines: seq<string>) returns (tokens: Option<seq<string>>)
    ensures tokens == TableTokens(h, footer, lines)
  {
    hide Opens, Dedupe, Body, LastLabelled;
    var end: Option<nat> := None;
    var index := 0;
    while index < |lines|
      invariant index <= |lines| && end == None
      invariant HeaderEnd(h, lines, 0) == HeaderEnd(h, lines, index)
    {
      if Opens(h, lines, index) {
        end := Some(LastLabelled(lines, index, Least(index + h.width, |lines|), h.last));
        break;
      }
      index := index + 1;
    }
    if end.None? {
      return None;
    }
    var kept := ReadBody(footer, lines, end.value + 1, h.body);
    var deduped := DedupeAdjacent(kept);
    tokens := Some(deduped);
  }

  method ReadBody(footer: string -> bool, lines: seq<string>, from: nat, n: nat) returns (kept: seq<string>)
    ensures kept == Body(footer, lines, from, n)
  {
    kept := [];
    var k := 0;
    assert [] + Body(footer, lines, from, n) == Body(footer, lines, from, n);
    while k < n && from + k < |lines|
      invariant k <= n && Body(footer, lines, from, n) == kept + Body(footer, lines, from + k, n - k)
      decreases n - k
    {
      if footer(lines[from + k]) {
        break;
      }
      ConcatAssociates(kept, [lines[from + k]], Body(footer, lines, from + k + 1, n - k - 1));
      kept := kept + [lines[from + k]];
      k := k + 1;
    }
    assert Body(footer, lines, from + k, n - k) == [] && kept + [] == kept;
  }

  // ----- a header where it is expected -----

  lemma {:induction false} LastLabelledAt(lines: seq<string>, i: nat, stop: nat, field: string, e: nat)
    requires i <= e < stop && e < |lines| && Fold(lines[e]) == field
    requires forall j :: e < j < stop && j < |lines| ==> Fold(lines[j]) != field
    ensures LastLabelled(lines, i, stop, field) == e
  {
    if e < stop - 1 { LastLabelledAt(lines, i, stop - 1, field, e); }
  }

  lemma {:induction false} FirstOpening(h: Header, lines: seq<string>, k: nat, i: nat)
    requires k <= i < |lines| && Opens(h, lines, i) && forall j :: k <= j < i ==> !Opens(h, lines, j)
    ensures HeaderEnd(h, lines, k) == HeaderEnd(h, lines, i)
    decreases i - k
  {
    hide Opens, LastLabelled;
    if k < i { FirstOpening(h, lines, k + 1, i); }
  }

  /** The first line that opens a header decides, and the header ends at its last closing label in reach. */
  lemma HeaderAt(h: Header, lines: seq<string>, i: nat, e: nat)
    requires Opens(h, lines, i) && forall j :: 0 <= j < i ==> !Opens(h, lines, j)
    requires i <= e < i + h.width && e < |lines| && Fold(lines[e]) == h.last
    requires forall j :: e < j < i + h.width && j < |lines| ==> Fold(lines[j]) != h.last
    ensures HeaderEnd(h, lines, 0) == Some(e)
  {
    FirstOpening(h, lines, 0, i);
    LastLabelledAt(lines, i, Least(i + h.width, |lines|), h.last, e);
    hide Opens, LastLabelled, Fold;
  }

  /** The lines behind a header up to the footer, as long as they fit. */
  lemma {:induction false} BodyIs(footer: string -> bool, lines: seq<string>, i: nat, n: nat, body: seq<string>,
      after: seq<string>)
    requires i <= |lines| && lines[i..] == body + after && |body| <= n
    requires forall k :: 0 <= k < |body| ==> !footer(body[k])
    requires |body| == n || after == [] || footer(after[0])
    ensures Body(footer, lines, i, n) == body
    decreases n
  {
    assert |lines| == i + |body| + |after|;
    if body == [] {
      if after != [] { assert lines[i] == lines[i..][0] == after[0]; }
    } else {
      assert lines[i] == lines[i..][0] == body[0];
      assert lines[i + 1..] == lines[i..][1..] == body[1..] + after;
      BodyIs(footer, lines, i + 1, n - 1, body[1..], after);
      assert body == [body[0]] + body[1..];
    }
  }

  /** The labels of a header on consecutive lines open it. */
  lemma OpensAt(h: Header, lines: seq<string>, i: nat, labels: seq<string>)
    requires labels != [] && labels[0] == h.first && |labels| <= h.width && i + |labels| <= |lines|
    requires forall k :: 0 <= k < |labels| ==> Fold(lines[i + k]) == labels[k]
    requires forall l :: l in h.labels ==> l in labels
    ensures Opens(h, lines, i)
  {
    hide Fold;
    assert lines[i] == lines[i + 0];
    forall l | l in h.labels ensures Labelled(lines, i, i + h.width, l) {
      var k :| 0 <= k < |labels| && labels[k] == l;
      assert Fold(lines[i + k]) == l;
    }
  }
}
