/** The filter is idempotent on a payload exactly when what it yields has scalar headers and normal rows. */
module FilterFixpoint {
  import opened Text
  import opened DocumentFields
  import opened FilterLaws
  import opened FilterAgain
  import opened RowFixpoint

  predicate HeadersScalar(d: seq<Entry>) {
    forall i :: 0 <= i < |d| && d[i].key != "line_items" ==> Scalar(d[i].value)
  }

  // ----- the lookups decide the output -----

  lemma {:induction false} OrderedSame(labels: seq<string>, n: Fields, m: Fields)
    requires forall l :: l in labels && l != "line_items" ==> Shown(n, l) == Shown(m, l)
    ensures Ordered(labels, n) == Ordered(labels, m)
  {
    if labels != [] {
      var l := labels[0];
      assert l in labels;
      NullBlank();
      hide Blank;
      OrderedSame(labels[1..], n, m);
    }
  }

  lemma FilteredSame(f: Form, x: Json, y: Json)
    requires WellFormed(f) && forall l :: Get(Filtered(f, x), l) == Get(Filtered(f, y), l)
    ensures Filtered(f, x) == Filtered(f, y)
  {
    var n, m := Collected(f, map[], x, ""), Collected(f, map[], y, "");
    FilteredGet(f, x, "line_items");
    FilteredGet(f, y, "line_items");
    assert ShownRows(f, n) == ShownRows(f, m);
    assert RowPart(f, n) == RowPart(f, m);
    hide Collected, WellFormed, Blank, RowPart, Shown, Ordered;
    forall l | l in f.order && l != "line_items" ensures Shown(n, l) == Shown(m, l) {
      FilteredGet(f, x, l);
      FilteredGet(f, y, l);
      assert Get(Filtered(f, x), l) == Get(Filtered(f, y), l);
    }
    OrderedSame(f.order, n, m);
  }

  // ----- if -----

  lemma OutputFlat(f: Form, fields: Json)
    requires WellFormed(f) && forall i :: 0 <= i < |Filtered(f, fields)| && Filtered(f, fields)[i].key != "line_items"
                                ==> Flat(Filtered(f, fields)[i].value)
    ensures FlatFields(Filtered(f, fields))
  {
    FilterShape(f, fields);
    var out := Filtered(f, fields);
    hide Filtered, Flat, IsLabel, Blank;
    forall i | 0 <= i < |out| ensures IsFlatEntry(out[i]) { KeyInOrder(f, out, i); }
  }

  lemma KeyInOrder(f: Form, out: seq<Entry>, i: nat)
    requires Sublist(Keys(out), f.order) && i < |out|
    ensures out[i].key in f.order
  {
    SublistIn(Keys(out), f.order, i);
    assert Keys(out)[i] == out[i].key;
  }

  /** A header the output shows is one of the form and not blank. */
  lemma ShownByOutput(f: Form, fields: Json, l: string)
    requires WellFormed(f)
    ensures var v := Get(Filtered(f, fields), l);
      && (v != Null ==> !Blank(v) && l in f.order)
      && (l == "line_items" && v != Null ==> v.List? && f.columns != [])
  {
    FilterShape(f, fields);
    var out := Filtered(f, fields);
    GetIn(out, l);
    hide Filtered, Blank;
    if Get(out, l) != Null {
      var i :| 0 <= i < |out| && out[i] == Entry(l, Get(out, l));
      KeyInOrder(f, out, i);
    }
  }

  lemma SettledOutput(f: Form, fields: Json)
    requires WellFormed(f)
    ensures var out := Filtered(f, fields);
      HeadersScalar(out) && NormalizeRows(f, Rows(out)) == Rows(out) ==> Filtered(f, Dict(out)) == out
  {
    var out := Filtered(f, fields);
    if HeadersScalar(out) && NormalizeRows(f, Rows(out)) == Rows(out) {
      OutputFlat(f, fields);
      hide Filtered, NormalizeRows, FlatFields;
      forall l ensures Get(Filtered(f, Dict(out)), l) == Get(out, l) {
        FilterFlat(f, out, l);
        ShownByOutput(f, fields, l);
        if l != "line_items" { GetIn(out, l); }
      }
      FilteredSame(f, Dict(out), fields);
    }
  }

  // ----- only if -----

  /** The depth of the deepest header among the first `k` entries. */
  function HeaderDepth(d: seq<Entry>, k: nat): nat
    requires k <= |d|
  {
    if k == 0 then 0
    else if d[k - 1].key == "line_items" then HeaderDepth(d, k - 1)
    else Max(HeaderDepth(d, k - 1), Depth(d[k - 1].value))
  }

  lemma {:induction false} Deepest(d: seq<Entry>, k: nat)
    requires k <= |d| && HeaderDepth(d, k) > 0
    ensures exists i :: 0 <= i < k && d[i].key != "line_items" && Depth(d[i].value) == HeaderDepth(d, k)
  {
    hide Depth;
    if d[k - 1].key == "line_items" || Depth(d[k - 1].value) != HeaderDepth(d, k) { Deepest(d, k - 1); }
  }

  lemma {:induction false} HeaderBelow(d: seq<Entry>, k: nat, i: nat)
    requires i < k <= |d| && d[i].key != "line_items"
    ensures Depth(d[i].value) <= HeaderDepth(d, k)
  {
    hide Depth;
    if i < k - 1 { HeaderBelow(d, k - 1, i); }
  }

  lemma {:induction false} SecondPassDescends(f: Form, d: seq<Entry>, k: nat, l: string)
    requires k <= |d| && l != "line_items" && forall i :: 0 <= i < |d| && d[i].key == "line_items" ==> d[i].value.List?
    ensures var after := CollectedEntries(f, map[], Dict(d), k);
      l in after ==> Scalar(after[l]) || Depth(after[l]) < HeaderDepth(d, k)
  {
    if k > 0 {
      SecondPassDescends(f, d, k - 1, l);
      var e := d[k - 1];
      var before := CollectedEntries(f, map[], Dict(d), k - 1);
      CollectDescends(f, before, e.value, e.key, l);
      if e.key == "line_items" { RowsSetNoHeader(f, before, e.value, l); }
      hide Collected, Depth;
    }
  }

  lemma RowsSetNoHeader(f: Form, n: Fields, v: Json, l: string)
    requires v.List? && l != "line_items"
    ensures InFields(Collected(f, n, v, "line_items"), l) == InFields(n, l)
    ensures l in Collected(f, n, v, "line_items") <==> l in n
  {
  }

  lemma NestedHeaderChanges(f: Form, fields: Json)
    requires WellFormed(f)
    ensures Filtered(f, Dict(Filtered(f, fields))) == Filtered(f, fields) ==> HeadersScalar(Filtered(f, fields))
  {
    var out := Filtered(f, fields);
    FilterShape(f, fields);
    if !HeadersScalar(out) {
      var j :| 0 <= j < |out| && out[j].key != "line_items" && !Scalar(out[j].value);
      HeaderBelow(out, |out|, j);
      Deepest(out, |out|);
      var i :| 0 <= i < |out| && out[i].key != "line_items" && Depth(out[i].value) == HeaderDepth(out, |out|);
      var l := out[i].key;
      hide Filtered, Blank, HeadersScalar;
      GetOf(out, i);
      SecondPassDescends(f, out, |out|, l);
      SecondPass(f, out);
      FilteredGet(f, Dict(out), l);
      assert out[i].value != Null;
      assert Get(Filtered(f, Dict(out)), l) != out[i].value;
    }
  }

  lemma NoLabel(d: seq<Entry>)
    requires !HasKey(d, "field_name") && !HasKey(d, "name")
    ensures LabelOf(d) == ""
  {
    GetAbsent(d, "field_name");
    GetAbsent(d, "name");
  }

  lemma SecondPass(f: Form, d: seq<Entry>)
    requires WellFormed(f) && Sublist(Keys(d), f.order)
    ensures Collected(f, map[], Dict(d), "") == CollectedEntries(f, map[], Dict(d), |d|)
  {
    hide Sublist, Keys, IsLabel;
    forall i | 0 <= i < |d| ensures d[i].key != "field_name" && d[i].key != "name" { KeyInOrder(f, d, i); }
    if d == [] {
      CollectNothing(f);
    } else {
      hide WellFormed, CollectedEntries, LabelOf, Get;
      NoLabel(d);
    }
  }

  /**
   * For every payload: filtering again changes nothing if and only if every kept header is a scalar and every kept row
   * is normal, an object of distinct filled columns whose prices are trimmed and free of droppable won signs. A header
   * that is a list or an object never survives a second pass.
   */
  lemma FilterIdempotentIff(f: Form, fields: Json)
    requires WellFormed(f)
    ensures var out := Filtered(f, fields);
      Filtered(f, Dict(out)) == out <==> HeadersScalar(out) && NormalRows(f, Rows(out))
  {
    var out := Filtered(f, fields);
    SettledOutput(f, fields);
    NestedHeaderChanges(f, fields);
    RowsFixedIff(f, Rows(out));
    if HeadersScalar(out) {
      OutputFlat(f, fields);
      hide Filtered, NormalizeRows, FlatFields, HeadersScalar, NormalRows;
      FilterFlat(f, out, "line_items");
      ShownByOutput(f, fields, "line_items");
    }
  }
}
