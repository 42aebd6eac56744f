/** Validation of extracted fields against the document text: filter, recover what was missed, filter again. */
module FieldValidation {
  import opened Text
  import opened DocumentFields
  import opened FilterLaws
  import opened FilterAgain
  import opened FilterFixpoint
  import opened RowFixpoint

  /** What the deterministic extraction reads off the text: labelled values and table rows. */
  datatype Extraction = Extraction(headers: seq<Entry>, rows: seq<Json>)

  function ExtractedEntries(x: Extraction): seq<Entry> {
    x.headers + if x.rows == [] then [] else [Entry("line_items", List(x.rows))]
  }

  /** `extract_predefined_document_fields` */
  function Recovered(f: Form, x: Extraction): seq<Entry> { Filtered(f, Dict(ExtractedEntries(x))) }

  /** The recovered fields fill what is missing or blank. */
  function Merge(merged: seq<Entry>, recovered: seq<Entry>, k: nat): seq<Entry>
    requires k <= |recovered|
  {
    if k == 0 then merged else
    var before := Merge(merged, recovered, k - 1);
    var e := recovered[k - 1];
    if !HasKey(before, e.key) || Blank(Get(before, e.key)) then Put(before, e.key, e.value) else before
  }

  /** `_recover_incomplete_quote_line_items` and its RFQ twin. */
  function RecoverRows(fields: seq<Entry>, recovered: seq<Entry>, rows: seq<Json>, expected: nat): seq<Entry> {
    if expected == 0 || |Rows(fields)| >= expected then fields else
    var candidate := if |Rows(recovered)| <= |Rows(fields)| then rows else Rows(recovered);
    if |candidate| > |Rows(fields)| then Put(fields, "line_items", List(candidate)) else fields
  }

  /** The filtered fields completed from the text. */
  function Completed(f: Form, filtered: seq<Entry>, x: Extraction): seq<Entry> {
    var recovered := Recovered(f, x);
    if recovered == [] then filtered else Filtered(f, Dict(Merge(filtered, recovered, |recovered|)))
  }

  /** `validated_predefined_document_fields` for a known form. */
  function Validated(f: Form, fields: Json, hasText: bool, x: Extraction, expected: nat): seq<Entry> {
    var filtered := Filtered(f, fields);
    if !hasText then filtered else
    var completed := Completed(f, filtered, x);
    if f.columns == [] then completed
    else Filtered(f, Dict(RecoverRows(completed, Recovered(f, x), x.rows, expected)))
  }

  method ValidateFields(f: Form, fields: Json, hasText: bool, x: Extraction, expected: nat)
      returns (filtered: seq<Entry>)
    ensures filtered == Validated(f, fields, hasText, x, expected)
  {
    filtered := FilterPredefinedFields(f, fields);
    if hasText {
      var recovered := FilterPredefinedFields(f, Dict(ExtractedEntries(x)));
      if recovered != [] {
        var merged := filtered;
        for k := 0 to |recovered|
          invariant merged == Merge(filtered, recovered, k)
        {
          var e := recovered[k];
          if !HasKey(merged, e.key) || Blank(Get(merged, e.key)) {
            merged := Put(merged, e.key, e.value);
          }
        }
        filtered := FilterPredefinedFields(f, Dict(merged));
      }
      if f.columns != [] {
        filtered := FilterPredefinedFields(f, Dict(RecoverRows(filtered, recovered, x.rows, expected)));
      }
    }
  }

  // ----- merging -----

  lemma {:induction false} PutGet(d: seq<Entry>, key: string, value: Json, l: string)
    ensures Get(Put(d, key, value), l) == if l == key then value else Get(d, l)
  {
    if d != [] {
      if d[0].key == key {
        assert ([Entry(key, value)] + d[1..])[1..] == d[1..];
      } else {
        PutGet(d[1..], key, value, l);
        assert ([d[0]] + Put(d[1..], key, value))[1..] == Put(d[1..], key, value);
      }
    }
  }

  lemma {:induction false} PutFlat(d: seq<Entry>, key: string, value: Json)
    requires FlatFields(d) && IsFlatEntry(Entry(key, value))
    ensures FlatFields(Put(d, key, value))
    ensures forall e :: e in Put(d, key, value) ==> e == Entry(key, value) || e in d
  {
    hide IsFlatEntry;
    if d != [] && d[0].key != key {
      PutFlat(d[1..], key, value);
      var r := Put(d[1..], key, value);
      forall i | 0 <= i < |r| ensures r[i].key != d[0].key { assert r[i] in r; }
    }
  }

  predicate Filled(d: seq<Entry>) { forall i :: 0 <= i < |d| ==> !Blank(d[i].value) }

  lemma FilledGet(d: seq<Entry>, l: string)
    requires Filled(d)
    ensures HasKey(d, l) <==> Get(d, l) != Null
    ensures HasKey(d, l) ==> !Blank(Get(d, l))
  {
    GetAbsent(d, l);
    if HasKey(d, l) { FilledHas(d, l); }
  }

  lemma {:induction false} FilledHas(d: seq<Entry>, l: string)
    requires Filled(d) && HasKey(d, l)
    ensures !Blank(Get(d, l)) && Get(d, l) != Null
  {
    NullBlank();
    hide Blank;
    if d[0].key != l {
      var i :| 0 <= i < |d| && d[i].key == l;
      assert d[1..][i - 1].key == l;
      FilledHas(d[1..], l);
    }
  }

  lemma {:induction false} MergeFlat(d: seq<Entry>, r: seq<Entry>, k: nat)
    requires FlatFields(d) && FlatFields(r) && Filled(d) && Filled(r) && k <= |r|
    ensures FlatFields(Merge(d, r, k)) && Filled(Merge(d, r, k))
  {
    if k > 0 {
      hide IsFlatEntry, DistinctKeys, Blank;
      MergeFlat(d, r, k - 1);
      var before := Merge(d, r, k - 1);
      assert IsFlatEntry(Entry(r[k - 1].key, r[k - 1].value)) && r[k - 1] == Entry(r[k - 1].key, r[k - 1].value);
      PutFlat(before, r[k - 1].key, r[k - 1].value);
      var after := Merge(d, r, k);
      forall i | 0 <= i < |after| ensures !Blank(after[i].value) { assert after[i] in after; }
    }
  }

  lemma {:induction false} MergeFilled(d: seq<Entry>, r: seq<Entry>, k: nat)
    requires DistinctKeys(d) && Filled(d) && Filled(r) && k <= |r|
    ensures DistinctKeys(Merge(d, r, k)) && Filled(Merge(d, r, k))
  {
    if k > 0 {
      hide DistinctKeys, Blank;
      MergeFilled(d, r, k - 1);
      var before, e := Merge(d, r, k - 1), r[k - 1];
      PutDistinct(before, e.key, e.value);
      PutEntries(before, e.key, e.value);
      var after := Merge(d, r, k);
      forall i | 0 <= i < |after| ensures !Blank(after[i].value) { assert after[i] in after; }
    }
  }

  /** A field that was there wins over a recovered one. */
  lemma {:induction false} MergeGet(d: seq<Entry>, r: seq<Entry>, k: nat, l: string)
    requires DistinctKeys(d) && DistinctKeys(r) && Filled(d) && Filled(r) && k <= |r|
    ensures Get(Merge(d, r, k), l) == if Get(d, l) != Null then Get(d, l) else Get(r[..k], l)
  {
    if k > 0 {
      MergeFilled(d, r, k - 1);
      assert r[k - 1].value != Null;
      GetSnoc(r, k, l);
      GetSnoc(r, k, r[k - 1].key);
      hide DistinctKeys, Blank, Get, Filled, HasKey;
      MergeGet(d, r, k - 1, l);
      MergeGet(d, r, k - 1, r[k - 1].key);
      var before := Merge(d, r, k - 1);
      FilledGet(before, r[k - 1].key);
      PutGet(before, r[k - 1].key, r[k - 1].value, l);
    }
  }

  // ----- what validation does to the headers -----

  /** Labelled texts and a table of rows that all have a filled column. */
  ghost predicate FromText(f: Form, x: Extraction) {
    && FlatFields(ExtractedEntries(x)) && !HasKey(x.headers, "line_items")
    && AllKept(f, x.rows)
  }

  lemma ExtractedGet(f: Form, x: Extraction, l: string)
    requires FromText(f, x)
    ensures l != "line_items" ==> Get(ExtractedEntries(x), l) == Get(x.headers, l)
    ensures Rows(ExtractedEntries(x)) == x.rows
  {
    GetAppend(x.headers, if x.rows == [] then [] else [Entry("line_items", List(x.rows))], l);
    GetAppend(x.headers, if x.rows == [] then [] else [Entry("line_items", List(x.rows))], "line_items");
    GetAbsent(x.headers, l);
    assert [Entry("line_items", List(x.rows))][1..] == [];
  }

  lemma RecoveredGet(f: Form, x: Extraction, l: string)
    requires WellFormed(f) && FromText(f, x)
    ensures l != "line_items" ==> Get(Recovered(f, x), l) == HeaderIn(f, Get(x.headers, l), l)
    ensures f.columns != [] ==> Rows(Recovered(f, x)) == NormalizeRows(f, x.rows) && |Rows(Recovered(f, x))| == |x.rows|
  {
    ExtractedGet(f, x, l);
    FilterFlat(f, ExtractedEntries(x), l);
    FilterFlat(f, ExtractedEntries(x), "line_items");
    NormalizeRowsKept(f, x.rows);
  }

  /** The output of a filter run over flat fields is flat, filled, and has scalar headers. */
  lemma FilteredFlat(f: Form, d: seq<Entry>)
    requires WellFormed(f) && FlatFields(d)
    ensures var out := Filtered(f, Dict(d)); FlatFields(out) && Filled(out) && HeadersScalar(out)
  {
    var out := Filtered(f, Dict(d));
    FilterShape(f, Dict(d));
    hide Filtered, FlatFields;
    forall i | 0 <= i < |out| && out[i].key != "line_items" ensures Scalar(out[i].value) && Flat(out[i].value) {
      FilterFlat(f, d, out[i].key);
      GetOf(out, i);
    }
    OutputFlat(f, Dict(d));
  }

  /**
   * What the later passes leave of a header: a supplied value only while it is scalar, a recovered one only where none
   * was supplied.
   */
  function Surviving(f: Form, filtered: seq<Entry>, x: Extraction, l: string): Json {
    if Get(filtered, l) != Null then HeaderIn(f, Get(filtered, l), l) else HeaderIn(f, Get(x.headers, l), l)
  }

  lemma MergedFields(f: Form, fields: Json, x: Extraction, l: string)
    requires WellFormed(f) && FromText(f, x) && FlatFields(Filtered(f, fields))
    ensures var filtered, recovered := Filtered(f, fields), Recovered(f, x);
      var merged := Merge(filtered, recovered, |recovered|);
      FlatFields(merged) && Get(merged, l) == if Get(filtered, l) != Null then Get(filtered, l) else Get(recovered, l)
  {
    var filtered, recovered := Filtered(f, fields), Recovered(f, x);
    FilterShape(f, fields);
    FilteredFlat(f, ExtractedEntries(x));
    hide Filtered, FlatFields, NormalizeRows, Merge, Blank, WellFormed, Get, Keys, Sublist, DistinctKeys, HeadersScalar;
    MergeFlat(filtered, recovered, |recovered|);
    MergeGet(filtered, recovered, |recovered|, l);
    assert recovered[..|recovered|] == recovered;
  }

  lemma CompletedFields(f: Form, fields: Json, x: Extraction, l: string)
    requires WellFormed(f) && FromText(f, x) && FlatFields(Filtered(f, fields)) && Recovered(f, x) != []
    ensures var filtered := Filtered(f, fields); var done := Completed(f, filtered, x);
      && FlatFields(done)
      && (l != "line_items" ==> Get(done, l) == Surviving(f, filtered, x, l))
      && (f.columns != [] ==>
           Rows(done)
             == NormalizeRows(f, if Get(filtered, "line_items") != Null then Rows(filtered)
             else NormalizeRows(f, x.rows)))
  {
    var filtered, recovered := Filtered(f, fields), Recovered(f, x);
    hide Filtered, FlatFields, NormalizeRows, Merge, Blank, FromText, Recovered, WellFormed, Get;
    var merged := Merge(filtered, recovered, |recovered|);
    MergedFields(f, fields, x, l);
    MergedFields(f, fields, x, "line_items");
    FilterFlat(f, merged, l);
    FilterFlat(f, merged, "line_items");
    FilteredFlat(f, merged);
    RecoveredGet(f, x, l);
  }

  lemma NothingRecovered(f: Form, x: Extraction, l: string)
    requires WellFormed(f) && FromText(f, x) && Recovered(f, x) == []
    ensures l != "line_items" ==> HeaderIn(f, Get(x.headers, l), l) == Null
    ensures f.columns != [] ==> x.rows == []
  {
    RecoveredGet(f, x, l);
  }

  lemma RecoverRowsFlat(fields: seq<Entry>, recovered: seq<Entry>, rows: seq<Json>, expected: nat, l: string)
    requires FlatFields(fields)
    ensures var d := RecoverRows(fields, recovered, rows, expected);
      FlatFields(d) && (l != "line_items" ==> Get(d, l) == Get(fields, l))
  {
    var candidate := if |Rows(recovered)| <= |Rows(fields)| then rows else Rows(recovered);
    assert IsFlatEntry(Entry("line_items", List(candidate)));
    PutFlat(fields, "line_items", List(candidate));
    PutGet(fields, "line_items", List(candidate), l);
  }

  /** Whether validation filters its own output at all. */
  predicate Refilters(f: Form, hasText: bool, x: Extraction) { hasText && (Recovered(f, x) != [] || f.columns != []) }

  /**
   * The headers after validation, for flat payloads: exactly the surviving ones, or those of the first pass when there
   * is no second.
   */
  lemma ValidatedHeader(f: Form, fields: Json, hasText: bool, x: Extraction, expected: nat, l: string)
    requires WellFormed(f) && FromText(f, x) && FlatFields(Filtered(f, fields)) && l != "line_items"
    ensures Get(Validated(f, fields, hasText, x, expected), l)
         == if Refilters(f, hasText, x) then Surviving(f, Filtered(f, fields), x, l) else Get(Filtered(f, fields), l)
  {
    if hasText {
      var filtered := Filtered(f, fields);
      var done := Completed(f, filtered, x);
      hide Filtered, FlatFields, NormalizeRows, FromText, RecoverRows, Recovered;
      if Recovered(f, x) == [] {
        NothingRecovered(f, x, l);
      } else {
        CompletedFields(f, fields, x, l);
      }
      assert FlatFields(done);
      if f.columns != [] {
        RecoverRowsFlat(done, Recovered(f, x), x.rows, expected, l);
        FilterFlat(f, RecoverRows(done, Recovered(f, x), x.rows, expected), l);
      }
    }
  }

  /**
   * A supplied header is kept with its value if and only if it is a scalar or validation stops after the first pass. A
   * list the model wrote for a header is dropped, and takes with it the value the text would have given.
   */
  lemma HeaderKeptIff(f: Form, fields: Json, hasText: bool, x: Extraction, expected: nat, l: string)
    requires WellFormed(f) && FromText(f, x) && FlatFields(Filtered(f, fields)) && l != "line_items"
    requires Get(Filtered(f, fields), l) != Null
    ensures Get(Validated(f, fields, hasText, x, expected), l) == Get(Filtered(f, fields), l)
        <==> Scalar(Get(Filtered(f, fields), l)) || !Refilters(f, hasText, x)
  {
    ValidatedHeader(f, fields, hasText, x, expected, l);
    ShownByOutput(f, fields, l);
    hide Filtered, Validated, FlatFields, FromText, Refilters, Blank;
  }
}
