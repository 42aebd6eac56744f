/** What the field filter yields, and exactly when filtering its own output changes nothing. */
module FilterLaws {
  import opened Text
  import opened DocumentFields

  // ----- looking up what the filter yields -----

  /** The value a label has, Null when it has none. */
  function Shown(n: Fields, l: string): Json { if l in n && !Blank(n[l]) then n[l] else Null }

  function Keys(entries: seq<Entry>): seq<string> { seq(|entries|, i requires 0 <= i < |entries| => entries[i].key) }

  function RowsIn(v: Json): seq<Json> { if v.List? then v.items else [] }

  /** The table rows of a field payload. */
  function Rows(entries: seq<Entry>): seq<Json> { RowsIn(Get(entries, "line_items")) }

  predicate Sublist(keys: seq<string>, labels: seq<string>) {
    keys == []
      || (labels != []
      && (if keys[0] == labels[0] then Sublist(keys[1..], labels[1..]) else Sublist(keys, labels[1..])))
  }

  predicate DistinctKeys(entries: seq<Entry>) {
    forall i, j :: 0 <= i < j < |entries| ==> entries[i].key != entries[j].key
  }

  lemma {:induction false} GetAppend(a: seq<Entry>, b: seq<Entry>, key: string)
    ensures Get(a + b, key) == if HasKey(a, key) then Get(a, key) else Get(b, key)
  {
    if a == [] {
      assert a + b == b;
    } else {
      assert (a + b)[1..] == a[1..] + b && (a + b)[0] == a[0];
      GetAppend(a[1..], b, key);
      assert HasKey(a, key) <==> a[0].key == key || HasKey(a[1..], key) by {
        if HasKey(a[1..], key) { var i :| 0 <= i < |a[1..]| && a[1..][i].key == key; assert a[i + 1].key == key; }
        if HasKey(a, key) && a[0].key != key {
          var i :| 0 <= i < |a| && a[i].key == key; assert a[1..][i - 1].key == key;
        }
      }
    }
  }

  lemma {:induction false} GetAbsent(a: seq<Entry>, key: string)
    ensures !HasKey(a, key) ==> Get(a, key) == Null
  {
    if a != [] {
      GetAbsent(a[1..], key);
      if HasKey(a[1..], key) { var i :| 0 <= i < |a[1..]| && a[1..][i].key == key; assert a[i + 1].key == key; }
    }
  }

  lemma {:induction false} GetOf(a: seq<Entry>, i: nat)
    requires i < |a| && DistinctKeys(a)
    ensures Get(a, a[i].key) == a[i].value
  {
    if i > 0 { GetOf(a[1..], i - 1); }
  }

  lemma {:induction false} OrderedGet(labels: seq<string>, n: Fields, l: string)
    ensures Get(Ordered(labels, n), l) == if l in labels && l != "line_items" then Shown(n, l) else Null
    ensures HasKey(Ordered(labels, n), l) ==> l in labels && l != "line_items" && Shown(n, l) != Null
  {
    hide Blank;
    if labels != [] {
      OrderedGet(labels[1..], n, l);
      var k := labels[0];
      var here := if k != "line_items" && k in n && !Blank(n[k]) then [Entry(k, n[k])] else [];
      var rest := Ordered(labels[1..], n);
      GetAppend(here, rest, l);
      HasKeyAppend(here, rest, l);
      assert labels == [k] + labels[1..];
      assert here != [] ==> Get(here[1..], l) == Null;
      NullBlank();
    }
  }

  lemma NullBlank()
    ensures Blank(Null)
  {
  }

  lemma HasKeyAppend(a: seq<Entry>, b: seq<Entry>, key: string)
    ensures HasKey(a + b, key) <==> HasKey(a, key) || HasKey(b, key)
  {
    if HasKey(a, key) { var i :| 0 <= i < |a| && a[i].key == key; assert (a + b)[i].key == key; }
    if HasKey(b, key) { var i :| 0 <= i < |b| && b[i].key == key; assert (a + b)[|a| + i].key == key; }
  }

  /** The rows a payload shows: only forms with a table keep any. */
  function ShownRows(f: Form, n: Fields): Json {
    if f.columns != [] && Shown(n, "line_items").List? then n["line_items"] else Null
  }

  lemma FilteredGet(f: Form, fields: Json, l: string)
    ensures var n := Collected(f, map[], fields, "");
      Get(Filtered(f, fields), l) == if l == "line_items" then ShownRows(f, n) else if l in f.order then Shown(n, l)
        else Null
  {
    var n := Collected(f, map[], fields, "");
    OrderedGet(f.order, n, l);
    GetAbsent(Ordered(f.order, n), l);
    GetAppend(Ordered(f.order, n), RowPart(f, n), l);
    assert RowPart(f, n) != [] ==> Get(RowPart(f, n)[1..], l) == Null;
  }

  // ----- the shape of the output -----

  lemma SublistCons(e: Entry, tail: seq<Entry>, labels: seq<string>)
    requires labels != [] && Sublist(Keys(tail), labels[1..])
    ensures e.key == labels[0] ==> Sublist(Keys([e] + tail), labels)
    ensures labels[0] !in labels[1..] ==> Sublist(Keys(tail), labels)
  {
    assert Keys([e] + tail)[1..] == Keys(tail);
    if Keys(tail) != [] && Keys(tail)[0] == labels[0] { SublistHead(Keys(tail), labels[1..]); }
  }

  lemma {:induction false} OrderedSublist(labels: seq<string>, n: Fields, rest: seq<Entry>)
    requires forall i, j :: 0 <= i < j < |labels| ==> labels[i] != labels[j]
    requires rest == []
      || (|rest| == 1 && rest[0].key == "line_items" && labels != [] && labels[|labels| - 1] == "line_items")
    ensures Sublist(Keys(Ordered(labels, n) + rest), labels)
  {
    if labels == [] {
      assert Ordered(labels, n) + rest == [];
    } else if |labels| == 1 && rest != [] {
      assert Ordered(labels[1..], n) == [] && Ordered(labels, n) + rest == rest && Keys(rest)[1..] == [];
    } else {
      OrderedSublist(labels[1..], n, rest);
      hide Blank, Keys, Sublist;
      var e := Entry(labels[0], if labels[0] in n then n[labels[0]] else Null);
      SublistCons(e, Ordered(labels[1..], n) + rest, labels);
      ConcatAssociates([e], Ordered(labels[1..], n), rest);
      assert [] + Ordered(labels[1..], n) == Ordered(labels[1..], n);
    }
  }

  lemma {:induction false} SublistHead(keys: seq<string>, labels: seq<string>)
    requires keys != [] && Sublist(keys, labels)
    ensures keys[0] in labels
  {
    if keys[0] != labels[0] { SublistHead(keys, labels[1..]); }
  }

  /**
   * Whatever the payload: the output has labels of the form only, each at most once and in the order of the form, no
   * blank value, and rows only as a non-empty list of a form with a table.
   */
  lemma FilterShape(f: Form, fields: Json)
    requires WellFormed(f)
    ensures var out := Filtered(f, fields);
      && Sublist(Keys(out), f.order)
      && DistinctKeys(out)
      && (forall i :: 0 <= i < |out| ==> !Blank(out[i].value))
      && (forall i :: 0 <= i < |out| && out[i].key == "line_items" ==> f.columns != [] && out[i].value.List?)
  {
    var n := Collected(f, map[], fields, "");
    OrderedSublist(f.order, n, RowPart(f, n));
    OrderedEntries(f.order, n);
    SublistDistinct(Keys(Filtered(f, fields)), f.order);
    var out := Filtered(f, fields);
    forall i, j | 0 <= i < j < |out| ensures out[i].key != out[j].key {
      assert Keys(out)[i] != Keys(out)[j];
    }
  }

  lemma {:induction false} OrderedEntries(labels: seq<string>, n: Fields)
    ensures forall i :: 0 <= i < |Ordered(labels, n)| ==>
      !Blank(Ordered(labels, n)[i].value) && Ordered(labels, n)[i].key != "line_items"
  {
    hide Blank;
    if labels != [] { OrderedEntries(labels[1..], n); }
  }

  lemma {:induction false} SublistDistinct(keys: seq<string>, labels: seq<string>)
    requires Sublist(keys, labels) && forall i, j :: 0 <= i < j < |labels| ==> labels[i] != labels[j]
    ensures forall i, j :: 0 <= i < j < |keys| ==> keys[i] != keys[j]
  {
    if keys != [] {
      if keys[0] == labels[0] {
        SublistDistinct(keys[1..], labels[1..]);
        forall j | 0 < j < |keys| ensures keys[0] != keys[j] { SublistIn(keys[1..], labels[1..], j - 1); }
      } else {
        SublistDistinct(keys, labels[1..]);
      }
    }
  }

  lemma {:induction false} SublistIn(keys: seq<string>, labels: seq<string>, j: nat)
    requires j < |keys| && Sublist(keys, labels)
    ensures keys[j] in labels
  {
    if keys[0] == labels[0] {
      if j > 0 { SublistIn(keys[1..], labels[1..], j - 1); }
    } else {
      SublistIn(keys, labels[1..], j);
    }
  }
}
