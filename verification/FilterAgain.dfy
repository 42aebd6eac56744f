/** Filtering the filter's own output: what is kept, and the exact condition for nothing to change. */
module FilterAgain {
  import opened Text
  import opened DocumentFields
  import opened FilterLaws

  // ----- payloads whose headers do not nest -----

  /** A scalar, or a list of scalars. */
  predicate Flat(v: Json) { Scalar(v) || (v.List? && forall i :: 0 <= i < |v.items| ==> Scalar(v.items[i])) }

  /** An object with plain keys and flat headers; its rows, if any, are a list. */
  predicate FlatFields(d: seq<Entry>) {
    && DistinctKeys(d)
    && forall i :: 0 <= i < |d| ==> IsFlatEntry(d[i])
  }

  predicate IsFlatEntry(e: Entry) {
    if e.key == "line_items" then e.value.List? else IsLabel(e.key) && !Special(e.key) && Flat(e.value)
  }

  /** What collecting a flat object gives a header. */
  function HeaderIn(f: Form, v: Json, l: string): Json { if l in f.order && Scalar(v) && !Blank(v) then v else Null }

  function InFields(n: Fields, l: string): Json { if l in n then n[l] else Null }

  lemma {:induction false} ScalarsIgnored(f: Form, n: Fields, item: Json, k: nat)
    requires item.List? && k <= |item.items| && Flat(item)
    ensures CollectedItems(f, n, item, k) == n
  {
    if k > 0 { ScalarsIgnored(f, n, item, k - 1); }
  }

  lemma CollectFlatEntry(f: Form, n: Fields, e: Entry)
    requires IsFlatEntry(e)
    ensures var after := Collected(f, n, e.value, e.key);
      if e.key == "line_items" then
        after == if NormalizeRows(f, e.value.items) == [] then n
          else n["line_items" := List(NormalizeRows(f, e.value.items))]
      else if Scalar(e.value) && e.key in f.order && !Blank(e.value) then after == n[e.key := e.value]
      else after == n
  {
    if e.key != "line_items" {
      StripFixes(e.key);
      if e.value.List? { ScalarsIgnored(f, n, e.value, |e.value.items|); }
      hide Strip, NormalizeRows, CollectedItems;
    } else {
      hide Strip, CollectedItems, SetAllowed;
    }
  }

  lemma GetSnoc(d: seq<Entry>, k: nat, l: string)
    requires 0 < k <= |d| && DistinctKeys(d)
    ensures Get(d[..k], l) == if d[k - 1].key == l then d[k - 1].value else Get(d[..k - 1], l)
    ensures d[k - 1].key == l ==> Get(d[..k - 1], l) == Null
  {
    assert d[..k] == d[..k - 1] + [d[k - 1]];
    GetAppend(d[..k - 1], [d[k - 1]], l);
    GetAbsent(d[..k - 1], l);
    assert [d[k - 1]][1..] == [];
    assert d[k - 1].key == l ==> forall i :: 0 <= i < k - 1 ==> d[i].key != l;
  }

  /** Entry by entry: the headers of a flat object that are scalar are collected as they are, the rows normalised. */
  lemma {:induction false} CollectFlat(f: Form, d: seq<Entry>, k: nat, l: string)
    requires FlatFields(d) && k <= |d|
    ensures var n := CollectedEntries(f, map[], Dict(d), k);
      InFields(n, l) == if l == "line_items" then
          var rows := NormalizeRows(f, RowsIn(Get(d[..k], l)));
          if rows == [] then Null else List(rows)
        else HeaderIn(f, Get(d[..k], l), l)
  {
    if k > 0 {
      CollectFlat(f, d, k - 1, l);
      GetSnoc(d, k, l);
      var e := d[k - 1];
      assert IsFlatEntry(e);
      CollectFlatEntry(f, CollectedEntries(f, map[], Dict(d), k - 1), e);
      assert e.key !in {"field_name", "name", "value"};
      assert NormalizeRows(f, []) == [];
      hide NormalizeRows, IsLabel, Flat, DistinctKeys, Get, Collected;
    }
  }

  lemma NoOwnLabel(d: seq<Entry>)
    requires FlatFields(d)
    ensures LabelOf(d) == ""
  {
    GetAbsent(d, "field_name");
    GetAbsent(d, "name");
    forall i | 0 <= i < |d| ensures d[i].key != "field_name" && d[i].key != "name" { assert IsFlatEntry(d[i]); }
  }

  /** Filtering a flat object keeps exactly its scalar headers and its rows normalised. */
  lemma FilterFlat(f: Form, d: seq<Entry>, l: string)
    requires FlatFields(d)
    ensures Get(Filtered(f, Dict(d)), l) ==
      if l == "line_items" then
        var rows := NormalizeRows(f, Rows(d));
        if f.columns == [] || rows == [] then Null else List(rows)
      else HeaderIn(f, Get(d, l), l)
  {
    CollectFlat(f, d, |d|, l);
    NoOwnLabel(d);
    FilteredGet(f, Dict(d), l);
    assert d[..|d|] == d;
    hide NormalizeRows, IsLabel, Flat, DistinctKeys, LabelOf, CollectedEntries, Filtered;
    assert d == [] ==> Collected(f, map[], Dict(d), "") == CollectedEntries(f, map[], Dict(d), 0) by {
      CollectNothing(f);
    }
    assert Collected(f, map[], Dict(d), "") == CollectedEntries(f, map[], Dict(d), |d|);
  }

  lemma CollectNothing(f: Form)
    ensures Collected(f, map[], Dict([]), "") == map[] == CollectedEntries(f, map[], Dict([]), 0)
  {
  }

  // ----- rows -----

  /** A row that normalisation does not drop. */
  predicate Kept(f: Form, row: Json) { NormalizeRow(f, row) != [] }

  predicate AllKept(f: Form, rows: seq<Json>) { forall i :: 0 <= i < |rows| ==> Kept(f, rows[i]) }

  lemma {:induction false} DropWonHead(s: string)
    requires s != ""
    ensures DropWon(s, false) != "" && DropWon(s, false)[0] == s[0]
  {
  }

  lemma StripKeepsHead(s: string)
    requires s != "" && !IsSpace(s[0])
    ensures Strip(s) != ""
  {
    assert StripLeft(s) == s;
    StripRightKeepsHead(s);
  }

  lemma {:induction false} StripRightKeepsHead(s: string)
    requires s != "" && !IsSpace(s[0])
    ensures StripRight(s) != ""
  {
    if IsSpace(s[|s| - 1]) { StripRightKeepsHead(s[..|s| - 1]); }
  }

  /** Dropping the won sign never empties a cell. */
  lemma CellKept(field: string, value: Json)
    requires !Blank(value)
    ensures !Blank(CellValue(field, value))
  {
    var text := ValueText(value);
    if text != "" {
      StripTrims(StrOf(value));
      DropWonHead(text);
      StripKeepsHead(DropWon(text, false));
    }
  }

  /** The substitution is not idempotent, so a price cell can change on every pass. */
  lemma WonTwice()
    ensures StripWon("1원 원") == "1 원" && StripWon("1 원") == "1"
  {
    assert WonWidth("원 원") == 1 && "원 원"[1..] == " 원" && "1원 원"[1..] == "원 원" && " 원"[1..] == "원" && "원"[1..] == "";
    assert DropWon("원", false) == "원" && DropWon(" 원", false) == " 원" && DropWon("원 원", true) == " 원";
    assert DropWon("1원 원", false) == "1 원";
    assert "1 원"[1..] == " 원" && WonWidth(" 원") == 2 && " 원"[2..] == "";
    assert DropWon(" 원", true) == "" && DropWon("1 원", false) == "1";
    StripFixes("1 원");
    StripFixes("1");
  }

  lemma {:induction false} PutEntries(entries: seq<Entry>, key: string, value: Json)
    ensures Put(entries, key, value) != []
    ensures forall e :: e in Put(entries, key, value) ==> e in entries || e == Entry(key, value)
  {
    if entries != [] && entries[0].key != key { PutEntries(entries[1..], key, value); }
  }

  /** The cells of a normalised row are filled columns of the form. */
  lemma {:induction false} CellsKept(f: Form, entries: seq<Entry>, k: nat)
    requires k <= |entries|
    ensures forall e :: e in Cells(f, entries, k) ==> e.key in f.columns && !Blank(e.value)
    ensures (exists i :: 0 <= i < k && Strip(entries[i].key) in f.columns && !Blank(entries[i].value))
      ==> Cells(f, entries, k) != []
  {
    if k > 0 {
      CellsKept(f, entries, k - 1);
      var e := entries[k - 1];
      hide Strip, Blank, CellValue;
      if Strip(e.key) in f.columns && !Blank(e.value) {
        CellKept(Strip(e.key), e.value);
        PutEntries(Cells(f, entries, k - 1), Strip(e.key), CellValue(Strip(e.key), e.value));
      }
    }
  }

  /** A normalised row is not dropped by another normalisation. */
  lemma NormalizedKept(f: Form, row: Json)
    requires WellFormed(f) && Kept(f, row)
    ensures Kept(f, Dict(NormalizeRow(f, row)))
  {
    CellsKept(f, row.entries, |row.entries|);
    var cells := NormalizeRow(f, row);
    CellsKept(f, cells, |cells|);
    assert cells[0] in cells;
    StripFixes(cells[0].key);
  }

  lemma {:induction false} NormalizeRowsKept(f: Form, rows: seq<Json>)
    requires WellFormed(f)
    ensures AllKept(f, NormalizeRows(f, rows))
    ensures |NormalizeRows(f, rows)| <= |rows|
    ensures |NormalizeRows(f, rows)| == |rows| <==> AllKept(f, rows)
  {
    hide NormalizeRow, WellFormed;
    if rows != [] {
      NormalizeRowsKept(f, rows[1..]);
      if Kept(f, rows[0]) { NormalizedKept(f, rows[0]); }
      assert AllKept(f, rows) ==> AllKept(f, rows[1..]);
      assert AllKept(f, rows[1..]) && Kept(f, rows[0]) ==> AllKept(f, rows);
    }
  }

  // ----- every header of the second pass is nested in the first -----

  function Depth(v: Json): nat
    decreases v, 1, 0
  {
    match v
    case List(items) => 1 + DepthOfItems(v, |items|)
    case Dict(entries) => 1 + DepthOfEntries(v, |entries|)
    case _ => 0
  }

  function Max(a: nat, b: nat): nat { if a < b then b else a }

  function DepthOfItems(v: Json, k: nat): nat
    requires v.List? && k <= |v.items|
    decreases v, 0, k
  {
    if k == 0 then 0 else Max(DepthOfItems(v, k - 1), Depth(v.items[k - 1]))
  }

  function DepthOfEntries(v: Json, k: nat): nat
    requires v.Dict? && k <= |v.entries|
    decreases v, 0, k
  {
    if k == 0 then 0 else Max(DepthOfEntries(v, k - 1), Depth(v.entries[k - 1].value))
  }

  lemma {:induction false} EntryDepth(v: Json, k: nat, i: nat)
    requires v.Dict? && i < k <= |v.entries|
    ensures Depth(v.entries[i].value) <= DepthOfEntries(v, k)
  {
    if i < k - 1 { EntryDepth(v, k - 1, i); }
  }

  lemma {:induction false} GetIn(entries: seq<Entry>, key: string)
    ensures Get(entries, key) == Null || exists i :: 0 <= i < |entries| && entries[i] == Entry(key, Get(entries, key))
  {
    if entries != [] && entries[0].key != key {
      GetIn(entries[1..], key);
      if Get(entries[1..], key) != Null {
        var i :| 0 <= i < |entries[1..]| && entries[1..][i] == Entry(key, Get(entries[1..], key));
        assert entries[i + 1] == Entry(key, Get(entries, key));
      }
    } else if entries != [] {
      assert entries[0] == Entry(key, Get(entries, key));
    }
  }

  /**
   * Where a header found by collecting `item` comes from: it was there, or it is a scalar, or it lies inside `item`.
   */
  predicate Descends(n: Fields, after: Fields, item: Json, l: string) {
    l in after ==> (l in n && after[l] == n[l]) || Scalar(after[l]) || Depth(after[l]) < Depth(item)
  }

  lemma {:induction false} CollectDescends(f: Form, n: Fields, item: Json, fallback: string, l: string)
    requires l != "line_items"
    ensures Descends(n, Collected(f, n, item, fallback), item, l)
    decreases item, 1, 0
  {
    hide Blank, ScalarTexts, LabelOf, NormalizeRows, Strip;
    if Blank(item) {
    } else if item.List? {
      ItemsDescend(f, n, item, |item.items|, l);
    } else if item.Dict? {
      EntriesDescend(f, n, item, |item.entries|, l);
      var v := Get(item.entries, "value");
      GetIn(item.entries, "value");
      if v != Null {
        var i :| 0 <= i < |item.entries| && item.entries[i] == Entry("value", v);
        EntryDepth(item, |item.entries|, i);
      }
    }
  }

  lemma {:induction false} ItemsDescend(f: Form, n: Fields, item: Json, k: nat, l: string)
    requires l != "line_items" && item.List? && k <= |item.items|
    ensures var after := CollectedItems(f, n, item, k);
      l in after ==> (l in n && after[l] == n[l]) || Scalar(after[l]) || Depth(after[l]) <= DepthOfItems(item, k)
    decreases item, 0, k
  {
    if k > 0 {
      ItemsDescend(f, n, item, k - 1, l);
      CollectDescends(f, CollectedItems(f, n, item, k - 1), item.items[k - 1], "", l);
      hide Collected, Depth;
    }
  }

  lemma {:induction false} EntriesDescend(f: Form, n: Fields, item: Json, k: nat, l: string)
    requires l != "line_items" && item.Dict? && k <= |item.entries|
    ensures var after := CollectedEntries(f, n, item, k);
      l in after ==> (l in n && after[l] == n[l]) || Scalar(after[l]) || Depth(after[l]) <= DepthOfEntries(item, k)
    decreases item, 0, k
  {
    if k > 0 {
      EntriesDescend(f, n, item, k - 1, l);
      var e := item.entries[k - 1];
      CollectDescends(f, CollectedEntries(f, n, item, k - 1), e.value, e.key, l);
      hide Collected, Depth;
    }
  }
}
