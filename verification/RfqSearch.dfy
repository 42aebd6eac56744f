/** When the segmented RFQ search fails, in terms of the tokens alone. */
module RfqSearch {
  import opened Text
  import opened VerticalTokens
  import opened RfqTable
  import opened RfqRoundTrip

  /** The last amount in front of a unit, at least two tokens in. */
  predicate LastPair(segment: seq<string>, q: nat) {
    && 2 <= q < |segment| - 1 && IsQtyUnit(segment, q + 1)
    && forall k :: q + 1 < k < |segment| ==> !IsQtyUnit(segment, k)
  }

  /** All tokens up to `q` run into each other. */
  predicate RunsOn(segment: seq<string>, q: nat)
    requires q <= |segment|
  {
    forall j :: 0 < j < q ==> Continues(segment[j - 1], segment[j])
  }

  /**
   * No reading: there is no amount in front of a unit, or the last one stands too far left, or everything in front of
   * it runs together, so that no description is left over.
   */
  predicate Unreadable(segment: seq<string>) {
    forall q :: 0 <= q < |segment| && LastPair(segment, q) ==> RunsOn(segment, q)
  }

  lemma UnreadableIff(no: string, segment: seq<string>)
    ensures ParseSegment(no, segment).None? <==> Unreadable(segment)
  {
    hide IsAmount, IsUnit, Continues, Join, JoinCode;
    if |segment| >= 4 {
      var u := LastUnit(segment, |segment| - 1);
      if u >= 3 {
        assert LastPair(segment, u - 1);
        CodeStartChain(segment, u - 2);
        if RunsOn(segment, u - 1) { RunsToStart(segment, u - 2); }
        forall q | LastPair(segment, q) ensures q == u - 1 {}
      }
    }
  }

  lemma {:induction false} RunsToStart(segment: seq<string>, c: nat)
    requires c < |segment| && RunsOn(segment, c + 1)
    ensures CodeStart(segment, c) == 0
  {
    hide Continues;
    if c > 0 { RunsToStart(segment, c - 1); }
  }

  // ----- one number -----

  /** Where an item that starts at `s` may end: at the next number, or at the end of the text when that never occurs. */
  predicate Candidate(tokens: seq<string>, next: string, s: nat, e: nat) {
    && s < e <= |tokens|
    && if exists i :: s < i < |tokens| && tokens[i] == next then e < |tokens| && tokens[e] == next else e == |tokens|
  }

  /** The tokens between a number and a candidate end. */
  function Segment(tokens: seq<string>, s: nat, e: nat): seq<string>
    requires s < e <= |tokens|
  {
    tokens[s + 1..e]
  }

  predicate NoneReadable(tokens: seq<string>, next: string, s: nat) {
    forall e: nat :: e <= |tokens| && Candidate(tokens, next, s, e) ==> Unreadable(Segment(tokens, s, e))
  }

  lemma {:induction false} FirstParseNone(tokens: seq<string>, no: string, next: string, start: nat, i: nat)
    requires start < i
    ensures FirstParse(tokens, no, next, start, i).None?
            <==> forall e: nat :: i <= e < |tokens| && tokens[e] == next
                   ==> ParseSegment(no, Segment(tokens, start, e)).None?
    decreases |tokens| - i
  {
    hide ParseSegment;
    if i < |tokens| { FirstParseNone(tokens, no, next, start, i + 1); }
  }

  lemma ItemNone(tokens: seq<string>, no: string, next: string, s: nat)
    requires s < |tokens|
    ensures ItemAt(tokens, no, next, s).None? <==> NoneReadable(tokens, next, s)
  {
    forall e: nat | s < e <= |tokens|
      ensures ParseSegment(no, Segment(tokens, s, e)).None? <==> Unreadable(Segment(tokens, s, e)) {
      UnreadableIff(no, Segment(tokens, s, e));
    }
    FirstParseNone(tokens, no, next, s, s + 1);
    hide ParseSegment, Unreadable, FirstParse;
    assert tokens[s + 1..|tokens|] == tokens[s + 1..] == Segment(tokens, s, |tokens|);
    if FindFrom(tokens, next, s + 1) >= 0 {
      assert forall e: nat :: Candidate(tokens, next, s, e) <==> s + 1 <= e < |tokens| && tokens[e] == next;
    } else {
      assert forall e: nat :: Candidate(tokens, next, s, e) <==> e == |tokens|;
    }
  }

  // ----- the whole search -----

  /** Behind no token `no`, from `from` on, is there anything readable. */
  predicate NothingFrom(tokens: seq<string>, from: nat, no: string, next: string) {
    forall s: nat :: from <= s < |tokens| && tokens[s] == no ==> NoneReadable(tokens, next, s)
  }

  lemma NothingStep(tokens: seq<string>, from: nat, no: string, next: string)
    ensures var start := FindFrom(tokens, no, from);
      NothingFrom(tokens, from, no, next) <==>
        start < 0 || (NoneReadable(tokens, next, start) && NothingFrom(tokens, start + 1, no, next))
  {
    hide NoneReadable;
  }

  lemma {:induction false} NothingExtracted(tokens: seq<string>, from: nat, no: nat)
    ensures Extract(tokens, from, no) == [] <==> NothingFrom(tokens, from, Decimal(no), Decimal(no + 1))
    decreases |tokens| - from
  {
    hide Decimal, ItemAt, NoneReadable, NothingFrom, FindFrom;
    var start := FindFrom(tokens, Decimal(no), from);
    NothingStep(tokens, from, Decimal(no), Decimal(no + 1));
    if start >= 0 {
      ItemNone(tokens, Decimal(no), Decimal(no + 1), start);
      if ItemAt(tokens, Decimal(no), Decimal(no + 1), start).None? { NothingExtracted(tokens, start + 1, no); }
    }
  }

  /** For every token list, the search finds no item if and only if nothing behind a first number is readable. */
  lemma SearchFindsNothingIff(tokens: seq<string>)
    ensures SegmentedItems(tokens) == [] <==> NothingFrom(tokens, 0, Decimal(1), Decimal(2))
  {
    hide Decimal, NothingFrom, Extract;
    NothingExtracted(tokens, 0, 1);
    assert |SegmentedItems(tokens)| == |Extract(tokens, 0, 1)|;
  }
}
