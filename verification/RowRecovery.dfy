/** Table rows under validation: none is lost, and a short table is completed from the text. */
module RowRecovery {
  import opened Text
  import opened DocumentFields
  import opened FilterLaws
  import opened FilterAgain
  import opened FilterFixpoint
  import opened RowFixpoint
  import opened FieldValidation
  import RfqTable
  import RfqText
  import VerticalTokens

  function Least(a: nat, b: nat): nat { if a < b then a else b }

  // ----- rows behind arbitrary headers -----

  /** A payload whose rows are a list behind which only flat headers stand; the headers before may nest anything. */
  ghost predicate RowsBehind(d: seq<Entry>) {
    && DistinctKeys(d) && !HasKey(d, "field_name") && !HasKey(d, "name")
    && forall i :: 0 <= i < |d| && d[i].key == "line_items" ==> RowsAt(d, i)
  }

  ghost predicate RowsAt(d: seq<Entry>, i: nat)
    requires i < |d|
  {
    d[i].value.List? && forall j :: i < j < |d| ==> d[j].key != "line_items" && IsFlatEntry(d[j])
  }

  /** Collecting the rows sets them, and what stands behind leaves them alone. */
  lemma {:induction false} RowsFrom(f: Form, d: seq<Entry>, i: nat, k: nat)
    requires i < k <= |d| && d[i].key == "line_items" && RowsAt(d, i) && NormalizeRows(f, d[i].value.items) != []
    ensures InFields(CollectedEntries(f, map[], Dict(d), k), "line_items") == List(NormalizeRows(f, d[i].value.items))
  {
    var before, e := CollectedEntries(f, map[], Dict(d), k - 1), d[k - 1];
    assert IsFlatEntry(e);
    CollectFlatEntry(f, before, e);
    assert e.key !in {"field_name", "name", "value"} by { hide Flat, IsLabel; }
    if k - 1 > i { RowsFrom(f, d, i, k - 1); }
    hide NormalizeRows, Collected;
  }

  /** So a pass of the filter keeps every row it can normalise, whatever the headers hold. */
  lemma RowsThrough(f: Form, d: seq<Entry>)
    requires WellFormed(f) && f.columns != [] && RowsBehind(d)
    ensures NormalizeRows(f, Rows(d)) != [] ==> Rows(Filtered(f, Dict(d))) == NormalizeRows(f, Rows(d))
  {
    GetIn(d, "line_items");
    FilteredGet(f, Dict(d), "line_items");
    NoLabel(d);
    assert NormalizeRows(f, []) == [];
    hide NormalizeRows, LabelOf, CollectedEntries, Filtered, Get;
    if NormalizeRows(f, Rows(d)) != [] {
      var i :| 0 <= i < |d| && d[i] == Entry("line_items", Get(d, "line_items"));
      assert RowsAt(d, i);
      RowsFrom(f, d, i, |d|);
      assert Collected(f, map[], Dict(d), "") == CollectedEntries(f, map[], Dict(d), |d|);
    }
  }

  /** Every output of the filter has its rows last. */
  lemma OutputBehind(f: Form, x: Json)
    requires WellFormed(f)
    ensures RowsBehind(Filtered(f, x)) && Filled(Filtered(f, x))
  {
    FilterShape(f, x);
    var out, n := Filtered(f, x), Collected(f, map[], x, "");
    OrderedEntries(f.order, n);
    var headers := Ordered(f.order, n);
    assert out == headers + RowPart(f, n);
    forall i | 0 <= i < |out| ensures out[i].key != "field_name" && out[i].key != "name" {
      KeyInOrder(f, out, i);
      hide Filtered, Sublist, Keys;
    }
    hide Ordered, Collected, Blank, IsLabel, Special;
    assert forall i :: 0 <= i < |headers| ==> out[i] == headers[i];
    forall i | 0 <= i < |out| && out[i].key == "line_items" ensures RowsAt(out, i) { assert i == |out| - 1; }
  }

  lemma AppendBehind(d: seq<Entry>, e: Entry)
    requires RowsBehind(d) && !HasKey(d, e.key) && IsFlatEntry(e)
    ensures RowsBehind(d + [e])
  {
    hide Flat, IsLabel;
    var more := d + [e];
    assert forall i :: 0 <= i < |d| ==> d[i].key != e.key;
    forall i | 0 <= i < |more| ensures more[i].key != "field_name" && more[i].key != "name" {
      if i < |d| { assert more[i] == d[i]; }
    }
    forall i | 0 <= i < |more| && more[i].key == "line_items" ensures RowsAt(more, i) {
      if i < |d| { assert RowsAt(d, i); }
    }
  }

  /** One recovered field at the end, or nothing. */
  lemma MergeOneBehind(before: seq<Entry>, e: Entry)
    requires RowsBehind(before) && Filled(before) && IsFlatEntry(e)
    ensures RowsBehind(if !HasKey(before, e.key) || Blank(Get(before, e.key)) then Put(before, e.key, e.value)
      else before)
  {
    FilledGet(before, e.key);
    hide RowsBehind, Blank, Get, Flat, Filled, IsFlatEntry;
    if !HasKey(before, e.key) {
      PutAbsent(before, e.key, e.value);
      AppendBehind(before, e);
    }
  }

  lemma {:induction false} MergeBehind(d: seq<Entry>, r: seq<Entry>, k: nat)
    requires RowsBehind(d) && Filled(d) && FlatFields(r) && Filled(r) && k <= |r|
    ensures RowsBehind(Merge(d, r, k))
  {
    if k > 0 {
      MergeBehind(d, r, k - 1);
      assert DistinctKeys(d);
      MergeFilled(d, r, k - 1);
      assert IsFlatEntry(r[k - 1]);
      hide RowsBehind, Blank, Get, Filled, HasKey, IsFlatEntry;
      MergeOneBehind(Merge(d, r, k - 1), r[k - 1]);
    }
  }

  lemma {:induction false} PutInPlace(d: seq<Entry>, key: string, value: Json) returns (i: nat)
    requires HasKey(d, key)
    ensures i < |d| && d[i].key == key && Put(d, key, value) == d[i := Entry(key, value)]
  {
    if d[0].key == key {
      i := 0;
    } else {
      var k :| 0 <= k < |d| && d[k].key == key;
      assert d[1..][k - 1].key == key;
      i := PutInPlace(d[1..], key, value);
      i := i + 1;
      assert [d[0]] + d[1..][i - 1 := Entry(key, value)] == d[i := Entry(key, value)];
    }
  }

  lemma PutBehind(d: seq<Entry>, rows: seq<Json>)
    requires RowsBehind(d)
    ensures RowsBehind(Put(d, "line_items", List(rows)))
  {
    var e := Entry("line_items", List(rows));
    if HasKey(d, "line_items") {
      var at := PutInPlace(d, "line_items", List(rows));
      var put := d[at := e];
      hide Flat, IsLabel, IsFlatEntry;
      forall i | 0 <= i < |put| ensures put[i].key != "field_name" && put[i].key != "name" && put[i].key == d[i].key {}
      forall i | 0 <= i < |put| && put[i].key == "line_items"
        ensures RowsAt(put, i) { assert d[i].key == "line_items"; assert RowsAt(d, i); }
    } else {
      PutAbsent(d, "line_items", List(rows));
      AppendBehind(d, e);
    }
  }

  // ----- the passes of validation -----

  /** One recovery step: never fewer rows, never below what is expected as far as the text has them. */
  lemma RecoverRowsCount(f: Form, fields: seq<Entry>, recovered: seq<Entry>, rows: seq<Json>, expected: nat)
    requires AllKept(f, rows) && AllKept(f, Rows(recovered)) && |Rows(recovered)| == |rows|
    ensures var after := Rows(RecoverRows(fields, recovered, rows, expected));
      && |after| >= |Rows(fields)| && |after| >= Least(expected, |rows|)
      && (after == Rows(fields) || AllKept(f, after))
  {
    var candidate := if |Rows(recovered)| <= |Rows(fields)| then rows else Rows(recovered);
    PutGet(fields, "line_items", List(candidate), "line_items");
  }

  lemma RecoverRowsBehind(fields: seq<Entry>, recovered: seq<Entry>, rows: seq<Json>, expected: nat)
    requires RowsBehind(fields)
    ensures RowsBehind(RecoverRows(fields, recovered, rows, expected))
  {
    PutBehind(fields, if |Rows(recovered)| <= |Rows(fields)| then rows else Rows(recovered));
    hide RowsBehind;
  }

  /** What a pass leaves of rows, in number. */
  lemma PassCount(f: Form, d: seq<Entry>)
    requires WellFormed(f) && f.columns != [] && RowsBehind(d)
    ensures |Rows(Filtered(f, Dict(d)))| >= |NormalizeRows(f, Rows(d))|
    ensures NormalizeRows(f, Rows(d)) != [] ==> AllKept(f, Rows(Filtered(f, Dict(d))))
    ensures AllKept(f, Rows(d)) ==> |Rows(Filtered(f, Dict(d)))| >= |Rows(d)|
  {
    RowsThrough(f, d);
    NormalizeRowsKept(f, Rows(d));
    hide Filtered, Rows, NormalizeRows, AllKept;
  }

  lemma RecoveredKept(f: Form, x: Extraction)
    requires WellFormed(f) && FromText(f, x) && f.columns != []
    ensures AllKept(f, Rows(Recovered(f, x))) && |Rows(Recovered(f, x))| == |x.rows| && AllKept(f, x.rows)
    ensures FlatFields(Recovered(f, x)) && Filled(Recovered(f, x)) && (Recovered(f, x) == [] ==> x.rows == [])
  {
    RecoveredGet(f, x, "line_items");
    NormalizeRowsKept(f, x.rows);
    FilteredFlat(f, ExtractedEntries(x));
  }

  lemma MergedRows(f: Form, fields: Json, x: Extraction)
    requires WellFormed(f) && FromText(f, x) && f.columns != []
    ensures var filtered, recovered := Filtered(f, fields), Recovered(f, x);
      var merged := Merge(filtered, recovered, |recovered|);
      RowsBehind(merged) && Rows(merged) == if Get(filtered, "line_items") != Null then Rows(filtered)
        else Rows(recovered)
  {
    var filtered, recovered := Filtered(f, fields), Recovered(f, x);
    OutputBehind(f, fields);
    RecoveredKept(f, x);
    assert DistinctKeys(filtered) && DistinctKeys(recovered);
    assert recovered[..|recovered|] == recovered;
    hide Filtered, Recovered, RowsBehind, FlatFields, Filled, Merge, DistinctKeys, Get, FromText, WellFormed;
    MergeBehind(filtered, recovered, |recovered|);
    MergeGet(filtered, recovered, |recovered|, "line_items");
  }

  /** The supplied rows are of use: there are none, one can be normalised, or no header nests anything. */
  ghost predicate Usable(f: Form, filtered: seq<Entry>) {
    Rows(filtered) == [] || NormalizeRows(f, Rows(filtered)) != [] || FlatFields(filtered)
  }

  lemma MergedPass(f: Form, fields: Json, x: Extraction)
    requires WellFormed(f) && FromText(f, x) && f.columns != []
    ensures var filtered, recovered := Filtered(f, fields), Recovered(f, x);
      var done := Filtered(f, Dict(Merge(filtered, recovered, |recovered|)));
      && |NormalizeRows(f, Rows(done))| >= |NormalizeRows(f, Rows(filtered))|
      && (x.rows != [] && Usable(f, filtered) ==> AllKept(f, Rows(done)))
  {
    var filtered, recovered := Filtered(f, fields), Recovered(f, x);
    var merged := Merge(filtered, recovered, |recovered|);
    MergedRows(f, fields, x);
    RecoveredKept(f, x);
    NoRowsAtAll(f, filtered);
    NormalizeRowsKept(f, Rows(merged));
    RowsThrough(f, merged);
    NormalizeRowsKept(f, NormalizeRows(f, Rows(merged)));
    if FlatFields(filtered) { FlatPass(f, fields, x); }
    RowsShown(f, fields);
    hide Filtered, Recovered, RowsBehind, NormalizeRows, Merge, FromText, WellFormed, AllKept, FlatFields, Rows;
  }

  /** Without nesting the rows after the pass are the normalised ones and no others. */
  lemma FlatPass(f: Form, fields: Json, x: Extraction)
    requires WellFormed(f) && FromText(f, x) && f.columns != [] && FlatFields(Filtered(f, fields))
    ensures var filtered, recovered := Filtered(f, fields), Recovered(f, x);
      AllKept(f, Rows(Filtered(f, Dict(Merge(filtered, recovered, |recovered|)))))
  {
    var filtered, recovered := Filtered(f, fields), Recovered(f, x);
    var merged := Merge(filtered, recovered, |recovered|);
    MergedFields(f, fields, x, "line_items");
    FilterFlat(f, merged, "line_items");
    NormalizeRowsKept(f, Rows(merged));
    hide Filtered, Recovered, NormalizeRows, Merge, FromText, WellFormed, FlatFields;
  }

  /** Rows are shown exactly when the key is there. */
  lemma RowsShown(f: Form, x: Json)
    requires WellFormed(f)
    ensures Rows(Filtered(f, x)) != [] <==> Get(Filtered(f, x), "line_items") != Null
  {
    ShownByOutput(f, x, "line_items");
  }

  lemma CompletedRows(f: Form, fields: Json, x: Extraction)
    requires WellFormed(f) && FromText(f, x) && f.columns != []
    ensures var filtered := Filtered(f, fields); var done := Completed(f, filtered, x);
      && RowsBehind(done)
      && |NormalizeRows(f, Rows(done))| >= |NormalizeRows(f, Rows(filtered))|
      && (x.rows != [] && Usable(f, filtered) ==> AllKept(f, Rows(done)))
  {
    var filtered, recovered := Filtered(f, fields), Recovered(f, x);
    OutputBehind(f, fields);
    OutputBehind(f, Dict(Merge(filtered, recovered, |recovered|)));
    RecoveredKept(f, x);
    MergedPass(f, fields, x);
    hide Filtered, Recovered, RowsBehind, NormalizeRows, Merge, FromText, WellFormed, AllKept, Usable, Rows;
  }

  lemma NoRowsAtAll(f: Form, d: seq<Entry>)
    ensures Get(d, "line_items") == Null ==> Rows(d) == [] && NormalizeRows(f, Rows(d)) == []
  {
  }

  /**
   * For every payload, nested in any way: validation never shortens the table. At least the rows the first pass can
   * normalise are there at the end; and when the text announces more rows than that, and the supplied ones were usable,
   * at least as many as the text yields up to the announced number.
   */
  lemma RowsNeverLost(f: Form, fields: Json, hasText: bool, x: Extraction, expected: nat)
    requires WellFormed(f) && FromText(f, x)
    ensures var filtered := Filtered(f, fields);
      var before := Rows(filtered); var after := Rows(Validated(f, fields, hasText, x, expected));
      && |after| >= |NormalizeRows(f, before)|
      && (AllKept(f, before) ==> |after| >= |before|)
      && (hasText && f.columns != [] && Usable(f, filtered) ==> |after| >= Least(expected, |x.rows|))
  {
    var filtered := Filtered(f, fields);
    NormalizeRowsKept(f, Rows(filtered));
    if f.columns == [] {
      NoTableNoRows(f, fields);
    } else if hasText {
      var done, recovered := Completed(f, filtered, x), Recovered(f, x);
      CompletedRows(f, fields, x);
      RecoveredKept(f, x);
      hide Filtered, NormalizeRows, Rows, Recovered, RecoverRows, Completed, FromText, AllKept, Usable, RowsBehind;
      var d := RecoverRows(done, recovered, x.rows, expected);
      RecoverRowsCount(f, done, recovered, x.rows, expected);
      RecoverRowsBehind(done, recovered, x.rows, expected);
      PassCount(f, d);
      NormalizeRowsKept(f, Rows(d));
      NormalizeRowsKept(f, Rows(done));
    }
  }

  lemma NoTableNoRows(f: Form, fields: Json)
    requires WellFormed(f) && f.columns == []
    ensures Rows(Filtered(f, fields)) == [] && NormalizeRows(f, []) == []
  {
    ShownByOutput(f, fields, "line_items");
  }

  // ----- RFQ attachments: extraction and validation together -----

  /** The fields of an extracted RFQ row. */
  function RfqRow(item: RfqTable.Item): Json {
    Dict([Entry("No", Str(item.no)), Entry("Description", Str(item.description)), Entry("Code", Str(item.code)),
          Entry("Qty", Str(item.qty)), Entry("Unit", Str(item.unit))])
  }

  function RfqRows(items: seq<RfqTable.Item>): seq<Json> {
    seq(|items|, i requires 0 <= i < |items| => RfqRow(items[i]))
  }

  lemma RfqRowKept(item: RfqTable.Item)
    requires item.no != ""
    ensures Kept(RFQ, RfqRow(item))
  {
    var entries := RfqRow(item).entries;
    CellsKept(RFQ, entries, |entries|);
    assert Trimmed("No");
    StripFixes("No");
    assert RFQ.columns[0] == "No";
    assert Strip(entries[0].key) in RFQ.columns && !Blank(entries[0].value);
  }

  /**
   * An RFQ read from its vertical table, by the search or by the scan behind it, with whatever one-line rows announce:
   * validation raises the missing-line-items warning only where the items of the table are themselves too few, which is
   * never when the search finds them and no one-line row announces more.
   */
  lemma RfqRowsComplete(tokens: seq<string>, horizontal: seq<nat>, fields: Json, headers: seq<Entry>)
    requires WellFormed(RFQ) && Usable(RFQ, Filtered(RFQ, fields))
    requires FlatFields(headers) && !HasKey(headers, "line_items")
    ensures var items := RfqText.TableItems(tokens);
      var expected := RfqText.Expected(horizontal, tokens);
      var after := Rows(Validated(RFQ, fields, true, Extraction(headers, RfqRows(items)), expected));
      && |after| >= Least(expected, |items|)
      && (VerticalTokens.LineItemsMissing(expected, |after|) ==> VerticalTokens.LineItemsMissing(expected, |items|))
      && (RfqTable.SegmentedItems(tokens) != [] && VerticalTokens.Max(horizontal) <= |items| ==>
           !VerticalTokens.LineItemsMissing(expected, |after|))
  {
    hide Decimal, RfqTable.SegmentedItems, RfqText.TableItems, RfqText.Expected, VerticalTokens.Max, Filtered,
      Validated, Kept, RfqRow, Rows, WellFormed, Usable;
    var items := RfqText.TableItems(tokens);
    var rows := RfqRows(items);
    var x := Extraction(headers, rows);
    RfqText.ItemsHaveNumbers(tokens);
    RfqText.TooFewIff(horizontal, tokens);
    forall i | 0 <= i < |rows| ensures Kept(RFQ, rows[i]) {
      assert IsNumber(items[i].no);
      RfqRowKept(items[i]);
    }
    assert FlatFields(ExtractedEntries(x)) by { WithRowsFlat(headers, rows); }
    RowsNeverLost(RFQ, fields, true, x, RfqText.Expected(horizontal, tokens));
  }

  lemma WithRowsFlat(headers: seq<Entry>, rows: seq<Json>)
    requires FlatFields(headers) && !HasKey(headers, "line_items")
    ensures FlatFields(ExtractedEntries(Extraction(headers, rows)))
  {
    hide Flat, IsLabel;
    var d := ExtractedEntries(Extraction(headers, rows));
    forall i | 0 <= i < |d| ensures IsFlatEntry(d[i]) { if i < |headers| { assert d[i] == headers[i]; } }
  }
}
