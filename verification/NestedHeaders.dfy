/**
 * What a pass of the filter makes of headers that nest others: each label has the value of the last header that sets
 * it.
 */
module NestedHeaders {
  import opened Text
  import opened DocumentFields
  import opened FilterLaws
  import opened FilterAgain
  import opened FilterFixpoint
  import opened FieldValidation
  import opened RowFixpoint
  import opened RowRecovery

  // ----- collecting never reads what was collected -----

  lemma {:induction false} Overlays(f: Form, n: Fields, item: Json, fallback: string)
    ensures Collected(f, n, item, fallback) == n + Collected(f, map[], item, fallback)
    decreases item, 1, 0
  {
    hide ScalarTexts, NormalizeRows, LabelOf, Strip;
    match item
    case List(items) => OverlaysItems(f, n, item, |items|);
    case Dict(entries) => OverlaysEntries(f, n, item, |entries|);
    case _ =>
  }

  lemma {:induction false} OverlaysItems(f: Form, n: Fields, item: Json, k: nat)
    requires item.List? && k <= |item.items|
    ensures CollectedItems(f, n, item, k) == n + CollectedItems(f, map[], item, k)
    decreases item, 0, k
  {
    if k > 0 {
      OverlaysItems(f, n, item, k - 1);
      Overlays(f, CollectedItems(f, n, item, k - 1), item.items[k - 1], "");
      Overlays(f, CollectedItems(f, map[], item, k - 1), item.items[k - 1], "");
      hide Collected;
    }
  }

  lemma {:induction false} OverlaysEntries(f: Form, n: Fields, item: Json, k: nat)
    requires item.Dict? && k <= |item.entries|
    ensures CollectedEntries(f, n, item, k) == n + CollectedEntries(f, map[], item, k)
    decreases item, 0, k
  {
    if k > 0 {
      var e := item.entries[k - 1];
      OverlaysEntries(f, n, item, k - 1);
      Overlays(f, CollectedEntries(f, n, item, k - 1), e.value, e.key);
      Overlays(f, CollectedEntries(f, map[], item, k - 1), e.value, e.key);
      hide Collected;
    }
  }

  // ----- one pass -----

  /** What one header sets by itself. */
  function Sets(f: Form, e: Entry): Fields { Collected(f, map[], e.value, e.key) }

  predicate SetBy(f: Form, d: seq<Entry>, from: nat, k: nat, l: string)
    requires k <= |d|
  {
    exists i :: from <= i < k && l in Sets(f, d[i])
  }

  /** What the headers from `from` up to `k` last set `l` to. */
  function LastSet(f: Form, d: seq<Entry>, from: nat, k: nat, l: string): Json
    requires k <= |d|
  {
    if k <= from then Null
    else if l in Sets(f, d[k - 1]) then Sets(f, d[k - 1])[l]
    else LastSet(f, d, from, k - 1, l)
  }

  /** Fields as every pass after the first receives them: labels of the form only. */
  ghost predicate Labelled(f: Form, d: seq<Entry>) { forall i :: 0 <= i < |d| ==> d[i].key in f.order }

  lemma {:induction false} EntriesSet(f: Form, d: seq<Entry>, k: nat, l: string)
    requires k <= |d| && forall i :: 0 <= i < |d| ==> d[i].key !in {"field_name", "name", "value"}
    ensures InFields(CollectedEntries(f, map[], Dict(d), k), l) == LastSet(f, d, 0, k, l)
  {
    if k > 0 {
      EntriesSet(f, d, k - 1, l);
      Overlays(f, CollectedEntries(f, map[], Dict(d), k - 1), d[k - 1].value, d[k - 1].key);
      hide Collected;
    }
  }

  lemma LabelledKeys(f: Form, d: seq<Entry>)
    requires WellFormed(f) && Labelled(f, d)
    ensures forall i :: 0 <= i < |d| ==> d[i].key !in {"field_name", "name", "value"}
  {
    forall i | 0 <= i < |d| ensures d[i].key !in {"field_name", "name", "value"} {
      assert d[i].key in f.order;
    }
  }

  lemma PassCollects(f: Form, d: seq<Entry>)
    requires forall i :: 0 <= i < |d| ==> d[i].key !in {"field_name", "name", "value"}
    ensures Collected(f, map[], Dict(d), "") == CollectedEntries(f, map[], Dict(d), |d|)
  {
    if d == [] {
      CollectNothing(f);
    } else {
      hide CollectedEntries, LabelOf, Get;
      NoLabel(d);
    }
  }

  /** A pass leaves of each label what the last header that sets it sets it to. */
  lemma PassHeader(f: Form, d: seq<Entry>, l: string)
    requires WellFormed(f) && Labelled(f, d) && l != "line_items"
    ensures var v := LastSet(f, d, 0, |d|, l);
      Get(Filtered(f, Dict(d)), l) == if l in f.order && !Blank(v) then v else Null
  {
    NullBlank();
    hide Labelled, WellFormed, LastSet, Filtered, Collected, CollectedEntries, Blank;
    LabelledKeys(f, d);
    EntriesSet(f, d, |d|, l);
    PassCollects(f, d);
    FilteredGet(f, Dict(d), l);
  }

  /** The value of a header after a pass over `d`. */
  function Through(f: Form, d: seq<Entry>, l: string): Json {
    var v := LastSet(f, d, 0, |d|, l);
    if l in f.order && !Blank(v) then v else Null
  }

  lemma {:induction false} LastSetFrom(f: Form, d: seq<Entry>, m: nat, k: nat, l: string)
    requires m <= k <= |d|
    ensures LastSet(f, d, 0, k, l) == if SetBy(f, d, m, k, l) then LastSet(f, d, m, k, l) else LastSet(f, d, 0, m, l)
    decreases k
  {
    hide Sets;
    if k > m {
      LastSetFrom(f, d, m, k - 1, l);
      assert SetBy(f, d, m, k, l) <==> l in Sets(f, d[k - 1]) || SetBy(f, d, m, k - 1, l);
    }
  }

  lemma ScalarSets(f: Form, e: Entry)
    requires WellFormed(f) && Scalar(e.value) && !Blank(e.value) && e.key in f.order && e.key != "line_items"
    ensures Sets(f, e) == map[e.key := e.value]
  {
    var i :| 0 <= i < |f.order| && f.order[i] == e.key;
    StripFixes(e.key);
    hide Blank;
  }

  /**
   * A scalar header goes through a pass as it is if and only if no header behind it sets its label, or the last one
   * that does sets it to the same value.
   */
  lemma ScalarThroughIff(f: Form, d: seq<Entry>, i: nat)
    requires WellFormed(f) && i < |d| && Scalar(d[i].value) && !Blank(d[i].value)
    requires d[i].key in f.order && d[i].key != "line_items"
    ensures Through(f, d, d[i].key) == d[i].value
            <==> !SetBy(f, d, i + 1, |d|, d[i].key) || LastSet(f, d, i + 1, |d|, d[i].key) == d[i].value
  {
    ScalarSets(f, d[i]);
    LastSetFrom(f, d, i + 1, |d|, d[i].key);
    NullBlank();
    hide Sets, WellFormed, Blank, Scalar;
    assert LastSet(f, d, 0, i + 1, d[i].key) == d[i].value;
  }

  // ----- validation -----

  lemma OutputLabelled(f: Form, fields: Json)
    requires WellFormed(f)
    ensures Labelled(f, Filtered(f, fields))
  {
    FilterShape(f, fields);
    var out := Filtered(f, fields);
    hide Filtered, Sublist, Keys;
    forall i | 0 <= i < |out| ensures out[i].key in f.order { KeyInOrder(f, out, i); }
  }

  lemma {:induction false} PutLabelled(f: Form, d: seq<Entry>, key: string, value: Json)
    requires Labelled(f, d) && key in f.order
    ensures Labelled(f, Put(d, key, value))
  {
    if d != [] && d[0].key != key { PutLabelled(f, d[1..], key, value); }
  }

  lemma {:induction false} MergeLabelled(f: Form, d: seq<Entry>, r: seq<Entry>, k: nat)
    requires Labelled(f, d) && Labelled(f, r) && k <= |r|
    ensures Labelled(f, Merge(d, r, k))
  {
    if k > 0 {
      MergeLabelled(f, d, r, k - 1);
      PutLabelled(f, Merge(d, r, k - 1), r[k - 1].key, r[k - 1].value);
    }
  }

  lemma RowsSetRows(f: Form, rows: Json, l: string)
    requires rows.List? && l != "line_items"
    ensures l !in Sets(f, Entry("line_items", rows))
  {
    RowsSetNoHeader(f, map[], rows, l);
    hide Collected;
  }

  lemma {:induction false} LastSetSame(f: Form, a: seq<Entry>, b: seq<Entry>, k: nat, l: string)
    requires k <= |a| && k <= |b|
    requires forall i :: 0 <= i < k ==> a[i] == b[i] || (l !in Sets(f, a[i]) && l !in Sets(f, b[i]))
    ensures LastSet(f, a, 0, k, l) == LastSet(f, b, 0, k, l)
  {
    hide Sets;
    if k > 0 { LastSetSame(f, a, b, k - 1, l); }
  }

  lemma LastSetSnoc(f: Form, d: seq<Entry>, e: Entry, l: string)
    requires l !in Sets(f, e)
    ensures LastSet(f, d + [e], 0, |d| + 1, l) == LastSet(f, d, 0, |d|, l)
  {
    LastSetSame(f, d, d + [e], |d|, l);
    hide Sets;
  }

  /** Completing the rows touches no header. */
  lemma RowsPutThrough(f: Form, d: seq<Entry>, rows: seq<Json>, l: string)
    requires l != "line_items" && forall i :: 0 <= i < |d| && d[i].key == "line_items" ==> d[i].value.List?
    ensures Through(f, Put(d, "line_items", List(rows)), l) == Through(f, d, l)
  {
    var e := Entry("line_items", List(rows));
    RowsSetRows(f, List(rows), l);
    forall i | 0 <= i < |d| && d[i].key == "line_items" ensures l !in Sets(f, d[i]) {
      RowsSetRows(f, d[i].value, l);
      assert d[i] == Entry("line_items", d[i].value);
    }
    LastSetSnoc(f, d, e, l);
    hide Sets, LastSet, Put, Blank;
    if HasKey(d, "line_items") {
      var at := PutInPlace(d, "line_items", List(rows));
      LastSetSame(f, d, d[at := e], |d|, l);
    } else {
      PutAbsent(d, "line_items", List(rows));
    }
  }

  /** The fields in front of the last pass. */
  function LastInput(f: Form, filtered: seq<Entry>, x: Extraction): seq<Entry> {
    var recovered := Recovered(f, x);
    if f.columns == [] then Merge(filtered, recovered, |recovered|) else Completed(f, filtered, x)
  }

  lemma LastInputLabelled(f: Form, fields: Json, x: Extraction)
    requires WellFormed(f)
    ensures Labelled(f, LastInput(f, Filtered(f, fields), x))
  {
    OutputLabelled(f, fields);
    var filtered, recovered := Filtered(f, fields), Recovered(f, x);
    OutputLabelled(f, Dict(ExtractedEntries(x)));
    OutputLabelled(f, Dict(Merge(filtered, recovered, |recovered|)));
    hide Filtered, Labelled, WellFormed, Merge;
    MergeLabelled(f, filtered, recovered, |recovered|);
  }

  lemma RowsAreLists(f: Form, fields: Json)
    requires WellFormed(f)
    ensures var d := Filtered(f, fields); forall i :: 0 <= i < |d| && d[i].key == "line_items" ==> d[i].value.List?
  {
    OutputBehind(f, fields);
    hide Filtered;
  }

  /**
   * Every header after validation, for every payload, however its headers nest others: what the last pass makes of it,
   * or the header of the first pass when there is no second.
   */
  lemma NestedHeader(f: Form, fields: Json, hasText: bool, x: Extraction, expected: nat, l: string)
    requires WellFormed(f) && l != "line_items"
    ensures var filtered := Filtered(f, fields);
      Get(Validated(f, fields, hasText, x, expected), l)
      == if Refilters(f, hasText, x) then Through(f, LastInput(f, filtered, x), l) else Get(filtered, l)
  {
    if Refilters(f, hasText, x) {
      var filtered, recovered := Filtered(f, fields), Recovered(f, x);
      LastInputLabelled(f, fields, x);
      var d := LastInput(f, filtered, x);
      var completed := Completed(f, filtered, x);
      if f.columns == [] {
        hide Filtered, Labelled, WellFormed, Merge, Recovered, Through;
        LabelledHeader(f, d, l);
      } else {
        RowsAreLists(f, fields);
        RowsAreLists(f, Dict(Merge(filtered, recovered, |recovered|)));
        hide Filtered, Labelled, WellFormed, Merge, Recovered, Through;
        var put := RecoverRows(completed, recovered, x.rows, expected);
        RecoverRowsThrough(f, completed, recovered, x.rows, expected, l);
        LabelledHeader(f, put, l);
      }
    }
  }

  lemma LabelledHeader(f: Form, d: seq<Entry>, l: string)
    requires WellFormed(f) && Labelled(f, d) && l != "line_items"
    ensures Get(Filtered(f, Dict(d)), l) == Through(f, d, l)
  {
    hide WellFormed, Labelled, LastSet, Filtered, Get, Blank;
    PassHeader(f, d, l);
  }

  lemma RecoverRowsThrough(f: Form, d: seq<Entry>, recovered: seq<Entry>, rows: seq<Json>, expected: nat, l: string)
    requires WellFormed(f) && f.columns != [] && Labelled(f, d) && l != "line_items"
    requires forall i :: 0 <= i < |d| && d[i].key == "line_items" ==> d[i].value.List?
    ensures var put := RecoverRows(d, recovered, rows, expected);
      Labelled(f, put) && Through(f, put, l) == Through(f, d, l)
  {
    var candidate := if |Rows(recovered)| <= |Rows(d)| then rows else Rows(recovered);
    assert "line_items" in f.order;
    hide WellFormed, Labelled, Through;
    PutLabelled(f, d, "line_items", List(candidate));
    RowsPutThrough(f, d, candidate, l);
  }

  /**
   * So a supplied header keeps its value if and only if there is no second pass, or the last header of the last pass
   * that sets its label sets it to that value.
   */
  lemma NestedHeaderKeptIff(f: Form, fields: Json, hasText: bool, x: Extraction, expected: nat, l: string)
    requires WellFormed(f) && l != "line_items" && Get(Filtered(f, fields), l) != Null
    ensures var v, d := Get(Filtered(f, fields), l), LastInput(f, Filtered(f, fields), x);
      Get(Validated(f, fields, hasText, x, expected), l) == v
      <==> !Refilters(f, hasText, x) || (SetBy(f, d, 0, |d|, l) && LastSet(f, d, 0, |d|, l) == v)
  {
    NestedHeader(f, fields, hasText, x, expected, l);
    ShownByOutput(f, fields, l);
    var d := LastInput(f, Filtered(f, fields), x);
    LastSetFrom(f, d, 0, |d|, l);
    NullBlank();
    hide Filtered, Validated, Refilters, LastInput, SetBy, Blank, WellFormed;
  }
}
