/** The segmented vertical RFQ parser: rows No, Description, Code, Qty, Unit, one token a line. */
module RfqTable {
  import opened Text
  import opened VerticalTokens

  datatype Option<+T> = None | Some(value: T)
  datatype Item = Item(no: string, description: string, code: string, qty: string, unit: string)

  /** One extracted item with the half-open token range it was read from; `start` holds its number. */
  datatype Found = Found(item: Item, start: nat, end: nat)

  // ----- one segment -----

  /** `[A-Za-z0-9._:/#\-]+` */
  predicate IsCodeToken(s: string) {
    s != "" && forall i :: 0 <= i < |s| ==> IsCodeChar(s[i])
  }

  predicate IsCodeChar(c: char) {
    || 'A' <= c <= 'Z' || 'a' <= c <= 'z' || IsDigit(c)
    || c == '.' || c == '_' || c == ':' || c == '/' || c == '#' || c == '-'
  }

  predicate EndsWith(s: string, c: char) { s != "" && s[|s| - 1] == c }

  predicate Continues(previous: string, current: string) {
    || EndsWith(previous, '-') || EndsWith(previous, '/') || EndsWith(previous, '.')
    || (IsCodeToken(previous) && IsCodeToken(current))
  }

  predicate IsQtyUnit(segment: seq<string>, i: nat)
    requires i < |segment|
  {
    i > 0 && IsUnit(segment[i]) && IsAmount(segment[i - 1])
  }

  /** The last index at or below `i` holding a unit that follows an amount, or -1. */
  function LastUnit(segment: seq<string>, i: int): (r: int)
    requires i < |segment|
    ensures r == -1 || (0 < r <= i && IsQtyUnit(segment, r))
    ensures forall k :: (if r < 0 then 0 else r) < k <= i ==> !IsQtyUnit(segment, k)
  {
    if i <= 0 then -1 else if IsQtyUnit(segment, i) then i else LastUnit(segment, i - 1)
  }

  /** How far left of `c` the code column reaches. */
  function CodeStart(segment: seq<string>, c: nat): (r: nat)
    requires c < |segment|
    ensures r <= c
  {
    if c > 0 && Continues(segment[c - 1], segment[c]) then CodeStart(segment, c - 1) else c
  }

  function JoinCode(parts: seq<string>): string
    requires parts != []
  {
    if exists i :: 0 <= i < |parts| - 1 && EndsWith(parts[i], '-') then Join(parts, "") else Join(parts, " ")
  }

  function ParseSegment(no: string, segment: seq<string>): Option<Item> {
    if |segment| < 4 then None else
    var unit := LastUnit(segment, |segment| - 1);
    var qty := unit - 1;
    if unit < 0 || qty < 2 then None else
    var code := CodeStart(segment, qty - 1);
    if code == 0 then None else
    Some(Item(no, Join(segment[..code], " "), JoinCode(segment[code..qty]), segment[qty], segment[unit]))
  }

  // ----- the token stream -----

  /** The first index at or after `from` holding `token`, or -1. */
  function FindFrom(tokens: seq<string>, token: string, from: nat): (r: int)
    ensures r == -1 || (from <= r < |tokens| && tokens[r] == token)
    ensures forall i :: from <= i < (if r < 0 then |tokens| else r) ==> tokens[i] != token
    decreases |tokens| - from
  {
    if from >= |tokens| then -1
    else if tokens[from] == token then from
    else FindFrom(tokens, token, from + 1)
  }

  /** The item numbered `no` that starts after `start`, ended by the first `next` at or after `i` that lets it parse. */
  function FirstParse(tokens: seq<string>, no: string, next: string, start: nat, i: nat): (r: Option<Found>)
    requires start < i
    ensures r.Some? ==> r.value.start == start && i <= r.value.end < |tokens| && tokens[r.value.end] == next
    ensures r.Some? ==> Some(r.value.item) == ParseSegment(no, tokens[start + 1..r.value.end])
    decreases |tokens| - i
  {
    if i >= |tokens| then None
    else if tokens[i] == next then
      match ParseSegment(no, tokens[start + 1..i])
      case Some(item) => Some(Found(item, start, i))
      case None => FirstParse(tokens, no, next, start, i + 1)
    else FirstParse(tokens, no, next, start, i + 1)
  }

  function ItemAt(tokens: seq<string>, no: string, next: string, start: nat): (r: Option<Found>)
    requires start < |tokens|
    ensures r.Some? ==> r.value.start == start < r.value.end <= |tokens|
    ensures r.Some? ==> Some(r.value.item) == ParseSegment(no, tokens[start + 1..r.value.end])
  {
    if FindFrom(tokens, next, start + 1) >= 0 then FirstParse(tokens, no, next, start, start + 1)
    else
      assert tokens[start + 1..] == tokens[start + 1..|tokens|];
      match ParseSegment(no, tokens[start + 1..])
      case Some(item) => Some(Found(item, start, |tokens|))
      case None => None
  }

  function Extract(tokens: seq<string>, from: nat, no: nat): seq<Found>
    decreases |tokens| - from
  {
    var start := FindFrom(tokens, Decimal(no), from);
    if start < 0 then [] else
    match ItemAt(tokens, Decimal(no), Decimal(no + 1), start)
    case None => Extract(tokens, start + 1, no)
    case Some(found) => [found] + Extract(tokens, found.end, no + 1)
  }

  function Items(found: seq<Found>): (r: seq<Item>)
    ensures |r| == |found| && forall i :: 0 <= i < |r| ==> r[i] == found[i].item
  {
    seq(|found|, i requires 0 <= i < |found| => found[i].item)
  }

  function SegmentedItems(tokens: seq<string>): seq<Item> { Items(Extract(tokens, 0, 1)) }

  // ----- the loops of the program, proved to compute these functions -----

  method ParseSegmentedItem(no: string, segment: seq<string>) returns (r: Option<Item>)
    ensures r == ParseSegment(no, segment)
  {
    if |segment| < 4 {
      return None;
    }
    var unitIndex, qtyIndex := -1, -1;
    var index := |segment| - 1;
    while index > 0
      invariant 0 <= index < |segment|
      invariant unitIndex == qtyIndex == -1
      invariant LastUnit(segment, |segment| - 1) == LastUnit(segment, index)
    {
      if IsUnit(segment[index]) && IsAmount(segment[index - 1]) {
        unitIndex, qtyIndex := index, index - 1;
        break;
      }
      index := index - 1;
    }
    if unitIndex < 0 || qtyIndex < 2 {
      return None;
    }
    var codeStart := qtyIndex - 1;
    while codeStart > 0 && Continues(segment[codeStart - 1], segment[codeStart])
      invariant 0 <= codeStart < qtyIndex
      invariant CodeStart(segment, qtyIndex - 1) == CodeStart(segment, codeStart)
    {
      codeStart := codeStart - 1;
    }
    var descriptionParts, codeParts := segment[..codeStart], segment[codeStart..qtyIndex];
    if descriptionParts == [] || codeParts == [] {
      return None;
    }
    r := Some(Item(no, Join(descriptionParts, " "), JoinCode(codeParts), segment[qtyIndex], segment[unitIndex]));
  }

  /** `indexes` lists, in order, every position from `from` on that holds `token`. */
  ghost predicate Indexes(tokens: seq<string>, token: string, from: nat, indexes: seq<nat>) {
    && (forall k :: 0 <= k < |indexes| ==> from <= indexes[k] < |tokens| && tokens[indexes[k]] == token)
    && (forall j, k :: 0 <= j < k < |indexes| ==> indexes[j] < indexes[k])
    && (forall i :: from <= i < |tokens| && tokens[i] == token ==> i in indexes)
  }

  /** Candidate ends: every later index holding the next number, in order. */
  method TokenIndexes(tokens: seq<string>, expected: string, start: nat) returns (indexes: seq<nat>)
    ensures Indexes(tokens, expected, start, indexes)
  {
    indexes := [];
    var index := start;
    while index < |tokens|
      invariant start <= index
      invariant forall k :: 0 <= k < |indexes|
                  ==> start <= indexes[k] < |tokens| && indexes[k] < index && tokens[indexes[k]] == expected
      invariant forall j, k :: 0 <= j < k < |indexes| ==> indexes[j] < indexes[k]
      invariant forall i :: start <= i < |tokens| && i < index && tokens[i] == expected ==> i in indexes
    {
      if tokens[index] == expected {
        indexes := indexes + [index];
      }
      index := index + 1;
    }
  }

  /** Only the candidate indexes matter to the search for a parsing end. */
  lemma {:induction false} SkipToCandidate(tokens: seq<string>, no: string, next: string, start: nat, i: nat, j: nat)
    requires start < i <= j
    requires forall k :: i <= k < j && k < |tokens| ==> tokens[k] != next
    ensures FirstParse(tokens, no, next, start, i) == FirstParse(tokens, no, next, start, j)
    decreases j - i
  {
    hide ParseSegment;
    if i < j && i < |tokens| { SkipToCandidate(tokens, no, next, start, i + 1, j); }
  }

  /** Where the search continues once the first `c` candidates have failed. */
  function Candidate(tokens: seq<string>, candidates: seq<nat>, c: nat): nat {
    if c < |candidates| then candidates[c] else |tokens|
  }

  lemma NoneBetween(tokens: seq<string>, token: string, from: nat, indexes: seq<nat>, c: nat, k: nat)
    requires Indexes(tokens, token, from, indexes)
    requires c <= |indexes|
    requires if c == 0 then from <= k else indexes[c - 1] < k
    requires k < Candidate(tokens, indexes, c) && k < |tokens|
    ensures tokens[k] != token
  {
    assert k !in indexes;
  }

  lemma FirstCandidate(tokens: seq<string>, no: string, next: string, start: nat, candidates: seq<nat>)
    requires Indexes(tokens, next, start + 1, candidates)
    requires candidates != []
    ensures start < candidates[0]
    ensures FirstParse(tokens, no, next, start, start + 1) == FirstParse(tokens, no, next, start, candidates[0])
  {
    hide ParseSegment;
    forall k | start + 1 <= k < candidates[0]
      ensures tokens[k] != next
    {
      NoneBetween(tokens, next, start + 1, candidates, 0, k);
    }
    SkipToCandidate(tokens, no, next, start, start + 1, candidates[0]);
  }

  lemma NextCandidate(tokens: seq<string>, no: string, next: string, start: nat, candidates: seq<nat>, c: nat)
    requires Indexes(tokens, next, start + 1, candidates)
    requires c < |candidates|
    ensures start < candidates[c] < Candidate(tokens, candidates, c + 1)
    ensures FirstParse(tokens, no, next, start, candidates[c] + 1)
         == FirstParse(tokens, no, next, start, Candidate(tokens, candidates, c + 1))
  {
    hide ParseSegment;
    var after := Candidate(tokens, candidates, c + 1);
    forall k | candidates[c] < k < after && k < |tokens|
      ensures tokens[k] != next
    {
      NoneBetween(tokens, next, start + 1, candidates, c + 1, k);
    }
    SkipToCandidate(tokens, no, next, start, candidates[c] + 1, after);
  }

  /** Tries the candidate ends in order and keeps the first whose segment parses. */
  method TryCandidates(tokens: seq<string>, no: string, next: string, start: nat, candidates: seq<nat>)
    returns (r: Option<Found>)
    requires Indexes(tokens, next, start + 1, candidates)
    requires candidates != []
    ensures r == FirstParse(tokens, no, next, start, start + 1)
  {
    hide ParseSegment;
    FirstCandidate(tokens, no, next, start, candidates);
    var c := 0;
    while c < |candidates|
      invariant c <= |candidates|
      invariant start < Candidate(tokens, candidates, c)
      invariant FirstParse(tokens, no, next, start, start + 1)
             == FirstParse(tokens, no, next, start, Candidate(tokens, candidates, c))
    {
      var candidateEnd := candidates[c];
      var candidate := ParseSegmentedItem(no, tokens[start + 1..candidateEnd]);
      if candidate.Some? {
        return Some(Found(candidate.value, start, candidateEnd));
      }
      NextCandidate(tokens, no, next, start, candidates, c);
      c := c + 1;
    }
    return None;
  }

  method FindItem(tokens: seq<string>, no: string, next: string, start: nat) returns (r: Option<Found>)
    requires start < |tokens|
    ensures r == ItemAt(tokens, no, next, start)
  {
    hide ParseSegment;
    var nextCandidates := TokenIndexes(tokens, next, start + 1);
    if nextCandidates != [] {
      assert tokens[nextCandidates[0]] == next;
      r := TryCandidates(tokens, no, next, start, nextCandidates);
    } else {
      var item := ParseSegmentedItem(no, tokens[start + 1..]);
      r := match item case Some(i) => Some(Found(i, start, |tokens|)) case None => None;
    }
  }

  method ExtractSegmentedItems(tokens: seq<string>) returns (items: seq<Item>)
    ensures items == SegmentedItems(tokens)
  {
    hide ParseSegment, Decimal, ItemAt, FindFrom;
    var found: seq<Found> := [];
    var searchStart, expectedNo := 0, 1;
    while searchStart < |tokens|
      invariant searchStart <= |tokens|
      invariant Extract(tokens, 0, 1) == found + Extract(tokens, searchStart, expectedNo)
      decreases |tokens| - searchStart
    {
      var no, next := Decimal(expectedNo), Decimal(expectedNo + 1);
      var start := FindFrom(tokens, no, searchStart);
      if start < 0 {
        break;
      }
      var item := FindItem(tokens, no, next, start);
      if item == None {
        searchStart := start + 1;
        continue;
      }
      found := found + [item.value];
      searchStart := item.value.end;
      expectedNo := expectedNo + 1;
    }
    assert found + [] == found;
    items := Items(found);
  }
}
