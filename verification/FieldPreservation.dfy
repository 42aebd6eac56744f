/** "Never lose extracted fields": what a series of saved analyses keeps, and exactly when it keeps nothing. */
module FieldPreservation {
  import opened Text
  import opened DocumentFields
  import opened FilterLaws
  import opened FilterAgain
  import opened FilterFixpoint
  import opened RowFixpoint
  import opened AnalysisHistory

  /** The object the business fields are filtered from. */
  function Origin(p: Payload): Json {
    if Presents(p.fields) then p.fields else if Presents(p.extractedFields) then p.extractedFields else Null
  }

  lemma {:induction false} OrderedNothing(labels: seq<string>)
    ensures Ordered(labels, map[]) == []
  {
    if labels != [] { OrderedNothing(labels[1..]); }
  }

  lemma BusinessFiltered(forms: Forms, f: Form, p: Payload)
    requires forms(p.documentType) == Some(f)
    ensures BusinessFields(forms, p) == Filtered(f, Origin(p))
  {
    OrderedNothing(f.order);
    assert Collected(f, map[], Null, "") == map[];
    hide Collected, Ordered;
  }

  // ----- filtered fields, filtered again -----

  /** Scalar headers and rows with a filled column. */
  ghost predicate Clean(f: Form, d: seq<Entry>) {
    FlatFields(d) && HeadersScalar(d) && AllKept(f, Rows(d))
  }

  /** The same headers with the same values, as many rows, and the same rows when those of the first are normal. */
  ghost predicate SameFields(f: Form, d: seq<Entry>, e: seq<Entry>) {
    && (forall l :: l != "line_items" ==> Get(d, l) == Get(e, l))
    && |Rows(d)| == |Rows(e)| && (NormalRows(f, Rows(d)) ==> Rows(e) == Rows(d))
  }

  /** Something a second pass keeps. */
  predicate Durable(f: Form, d: seq<Entry>) {
    || (exists i :: 0 <= i < |d| && d[i].key != "line_items" && Scalar(d[i].value))
    || NormalizeRows(f, Rows(d)) != []
  }

  lemma SecondHeader(f: Form, x: Json, l: string)
    requires WellFormed(f) && FlatFields(Filtered(f, x)) && l != "line_items"
    ensures var d := Filtered(f, x);
      Get(Filtered(f, Dict(d)), l) == if Scalar(Get(d, l)) then Get(d, l) else Null
  {
    FilterFlat(f, Filtered(f, x), l);
    ShownByOutput(f, x, l);
    NullBlank();
    hide Filtered, Blank, FlatFields;
  }

  lemma SecondRows(f: Form, x: Json)
    requires WellFormed(f) && FlatFields(Filtered(f, x))
    ensures var d := Filtered(f, x); Rows(Filtered(f, Dict(d))) == NormalizeRows(f, Rows(d))
  {
    FilterFlat(f, Filtered(f, x), "line_items");
    ShownByOutput(f, x, "line_items");
    assert NormalizeRows(f, []) == [];
    hide Filtered, FlatFields, NormalizeRows;
  }

  lemma Nonempty(f: Form, x: Json)
    requires WellFormed(f)
    ensures Filtered(f, x) != [] <==> (exists l :: Get(Filtered(f, x), l) != Null)
  {
    FilterShape(f, x);
    var d := Filtered(f, x);
    hide Filtered;
    if d != [] {
      GetOf(d, 0);
      assert Get(d, d[0].key) != Null;
    }
  }

  lemma RowsShown(f: Form, x: Json)
    requires WellFormed(f)
    ensures Rows(Filtered(f, x)) != [] <==> Get(Filtered(f, x), "line_items") != Null
  {
    ShownByOutput(f, x, "line_items");
  }

  /**
   * For flat fields: a second pass leaves something if and only if a header is a scalar or a row has a filled column.
   */
  lemma SecondPassEmptyIff(f: Form, x: Json)
    requires WellFormed(f) && FlatFields(Filtered(f, x))
    ensures Filtered(f, Dict(Filtered(f, x))) != [] <==> Durable(f, Filtered(f, x))
  {
    var d := Filtered(f, x);
    FilterShape(f, x);
    SecondRows(f, x);
    RowsShown(f, Dict(d));
    Nonempty(f, Dict(d));
    hide Filtered, NormalizeRows, Blank, WellFormed, Sublist;
    if exists i :: 0 <= i < |d| && d[i].key != "line_items" && Scalar(d[i].value) {
      var i :| 0 <= i < |d| && d[i].key != "line_items" && Scalar(d[i].value);
      GetOf(d, i);
      SecondHeader(f, x, d[i].key);
      assert d[i].value != Null;
    } else {
      forall l | l != "line_items" ensures Get(Filtered(f, Dict(d)), l) == Null {
        SecondHeader(f, x, l);
        GetIn(d, l);
      }
    }
  }

  lemma SameHeaders(f: Form, x: Json)
    requires WellFormed(f) && Clean(f, Filtered(f, x))
    ensures var d := Filtered(f, x); forall l :: l != "line_items" ==> Get(d, l) == Get(Filtered(f, Dict(d)), l)
  {
    var d := Filtered(f, x);
    hide Filtered, FlatFields, NormalizeRows, WellFormed, Rows, Blank;
    forall l | l != "line_items" ensures Get(d, l) == Get(Filtered(f, Dict(d)), l) {
      SecondHeader(f, x, l);
      GetIn(d, l);
    }
  }

  lemma SameRowsAgain(f: Form, x: Json)
    requires WellFormed(f) && Clean(f, Filtered(f, x))
    ensures var d := Filtered(f, x); var again := Filtered(f, Dict(d));
      |Rows(d)| == |Rows(again)| && (NormalRows(f, Rows(d)) ==> Rows(again) == Rows(d))
  {
    var d := Filtered(f, x);
    hide Filtered, FlatFields, NormalizeRows, WellFormed, Rows, NormalRows;
    SecondRows(f, x);
    RowsFixedIff(f, Rows(d));
    NormalizeRowsKept(f, Rows(d));
  }

  /** Clean fields come through a second pass whole. */
  lemma CleanAgain(f: Form, x: Json)
    requires WellFormed(f) && Clean(f, Filtered(f, x))
    ensures var d := Filtered(f, x); var again := Filtered(f, Dict(d));
      Clean(f, again) && SameFields(f, d, again) && (again != [] <==> d != [])
  {
    SecondIsClean(f, x);
    SameHeaders(f, x);
    SameRowsAgain(f, x);
    Nonempty(f, x);
    Nonempty(f, Dict(Filtered(f, x)));
    RowsShown(f, x);
    RowsShown(f, Dict(Filtered(f, x)));
    hide Filtered, Clean, WellFormed, Rows, Get, NormalRows;
  }

  /** Whatever flat fields were filtered, the second output is clean. */
  lemma SecondIsClean(f: Form, x: Json)
    requires WellFormed(f) && FlatFields(Filtered(f, x))
    ensures Clean(f, Filtered(f, Dict(Filtered(f, x))))
  {
    var d := Filtered(f, x);
    var again := Filtered(f, Dict(d));
    SecondRows(f, x);
    NormalizeRowsKept(f, Rows(d));
    FilterShape(f, Dict(d));
    hide Filtered, FlatFields, NormalizeRows, WellFormed, Rows, Blank;
    forall i | 0 <= i < |again| && again[i].key != "line_items" ensures Scalar(again[i].value) {
      GetOf(again, i);
      SecondHeader(f, x, again[i].key);
    }
    OutputFlat(f, Dict(d));
  }

  // ----- runs of saves -----

  /** The payload's type has the form `f`, and what it offers is clean. */
  ghost predicate Sound(forms: Forms, t: string, f: Form, p: Payload) {
    p.documentType == t && Clean(f, BusinessFields(forms, p))
  }

  /** The newest payload that offers fields. */
  function Found(forms: Forms, payloads: seq<Payload>): Option<Payload> {
    if payloads == [] then None
    else if HasFields(forms, payloads[|payloads| - 1]) then Some(payloads[|payloads| - 1])
    else Found(forms, payloads[..|payloads| - 1])
  }

  lemma PreservedFields(forms: Forms, f: Form, p: Payload, current: Payload)
    requires WellFormed(f) && forms(p.documentType) == Some(f) && current.documentType == p.documentType
    requires !HasFields(forms, p) && HasFields(forms, current)
    ensures BusinessFields(forms, Preserve(forms, p, Some(current)))
      == Filtered(f, Dict(BusinessFields(forms, current)))
    ensures Preserve(forms, p, Some(current)).documentType == p.documentType
  {
    BusinessFiltered(forms, f, current);
    FilterShape(f, Origin(current));
    hide Filtered, WellFormed;
    var d := BusinessFields(forms, current);
    assert !Blank(d[0].value);
  }

  /**
   * Through any series of analyses of one document type, the current one shows exactly the fields of the newest
   * analysis that found any: every header with its value, as many rows, the rows cell by cell when they were normal,
   * and nothing only while none was ever found.
   */
  lemma {:induction false} CurrentShowsFound(forms: Forms, t: string, f: Form, payloads: seq<Payload>)
    requires WellFormed(f) && forms(t) == Some(f) && payloads != []
    requires forall i :: 0 <= i < |payloads| ==> Sound(forms, t, f, payloads[i])
    ensures var current := Latest(forms, payloads).value; var found := Found(forms, payloads);
      && Sound(forms, t, f, current)
      && (found.Some? <==> HasFields(forms, current))
      && (found.Some? ==> SameFields(f, BusinessFields(forms, found.value), BusinessFields(forms, current)))
  {
    var init, p := payloads[..|payloads| - 1], payloads[|payloads| - 1];
    hide Clean, SameFields, WellFormed;
    if init == [] {
      assert Latest(forms, init) == None && Found(forms, init) == None;
      SameAsItself(f, BusinessFields(forms, p));
    } else {
      CurrentShowsFound(forms, t, f, init);
      var before := Latest(forms, init).value;
      hide BusinessFields;
      if HasFields(forms, p) {
        SameAsItself(f, BusinessFields(forms, p));
      } else if HasFields(forms, before) {
        PreservedFields(forms, f, p, before);
        BusinessFiltered(forms, f, before);
        CleanAgain(f, Origin(before));
        SameThrough(f, BusinessFields(forms, Found(forms, init).value), BusinessFields(forms, before),
                    BusinessFields(forms, Latest(forms, payloads).value));
      }
    }
  }

  lemma SameAsItself(f: Form, d: seq<Entry>)
    ensures SameFields(f, d, d)
  {
  }

  lemma SameThrough(f: Form, a: seq<Entry>, b: seq<Entry>, c: seq<Entry>)
    requires SameFields(f, a, b) && SameFields(f, b, c)
    ensures SameFields(f, a, c)
  {
  }

  /** Once the current analysis has business fields, it always has, whatever later runs find or fail to find. */
  lemma OnceFoundAlwaysThere(forms: Forms, t: string, f: Form, payloads: seq<Payload>, i: nat, j: nat)
    requires WellFormed(f) && forms(t) == Some(f) && 0 < i <= j <= |payloads|
    requires forall k :: 0 <= k < |payloads| ==> Sound(forms, t, f, payloads[k])
    ensures HasFields(forms, Latest(forms, payloads[..i]).value)
      ==> HasFields(forms, Latest(forms, payloads[..j]).value)
  {
    hide Sound, WellFormed, HasFields, Latest;
    CurrentShowsFound(forms, t, f, payloads[..i]);
    CurrentShowsFound(forms, t, f, payloads[..j]);
    FoundStays(forms, payloads, i, j);
  }

  lemma {:induction false} FoundStays(forms: Forms, payloads: seq<Payload>, i: nat, j: nat)
    requires i <= j <= |payloads|
    ensures Found(forms, payloads[..i]).Some? ==> Found(forms, payloads[..j]).Some?
  {
    hide HasFields;
    if i < j {
      FoundStays(forms, payloads, i, j - 1);
      assert payloads[..j][..j - 1] == payloads[..j - 1];
    }
  }

  // ----- exactly when fields survive -----

  /** The current analysis after later results replaced or preserved it. */
  function After(forms: Forms, current: Payload, later: seq<Payload>): Payload {
    if later == [] then current
    else Preserve(forms, later[|later| - 1], Some(After(forms, current, later[..|later| - 1])))
  }

  lemma {:induction false} LatestAfter(forms: Forms, p: Payload, later: seq<Payload>)
    ensures Latest(forms, [p] + later) == Some(After(forms, p, later))
  {
    hide Preserve;
    var all := [p] + later;
    if later == [] {
      assert all == [p];
      LatestOne(forms, p);
    } else {
      LatestAfter(forms, p, later[..|later| - 1]);
      assert all[..|all| - 1] == [p] + later[..|later| - 1];
    }
  }

  /**
   * A result with flat fields, followed by any number of results of its type without fields: the current analysis still
   * has fields if and only if one of the headers was a scalar or one of the rows had a filled column.
   */
  lemma {:induction false} SurvivesIff(forms: Forms, f: Form, p: Payload, later: seq<Payload>)
    requires WellFormed(f) && forms(p.documentType) == Some(f) && later != []
    requires HasFields(forms, p) && FlatFields(BusinessFields(forms, p))
    requires forall i :: 0 <= i < |later| ==> later[i].documentType == p.documentType && !HasFields(forms, later[i])
    ensures var current := After(forms, p, later);
      && (HasFields(forms, current) <==> Durable(f, BusinessFields(forms, p)))
      && current.documentType == p.documentType
      && (HasFields(forms, current) ==> Clean(f, BusinessFields(forms, current)))
  {
    hide HasFields, FlatFields, BusinessFields, Durable, Clean, WellFormed, Preserve;
    var init, q := later[..|later| - 1], later[|later| - 1];
    if init == [] {
      AfterFirst(forms, f, p, q);
    } else {
      SurvivesIff(forms, f, p, init);
      AfterNext(forms, f, q, After(forms, p, init));
    }
  }

  lemma AfterFirst(forms: Forms, f: Form, p: Payload, q: Payload)
    requires WellFormed(f) && forms(p.documentType) == Some(f) && q.documentType == p.documentType
    requires HasFields(forms, p) && FlatFields(BusinessFields(forms, p)) && !HasFields(forms, q)
    ensures var current := Preserve(forms, q, Some(p));
      && (HasFields(forms, current) <==> Durable(f, BusinessFields(forms, p)))
      && current.documentType == p.documentType && Clean(f, BusinessFields(forms, current))
  {
    PreservedFields(forms, f, q, p);
    BusinessFiltered(forms, f, p);
    hide WellFormed, Durable, FlatFields, Clean, Filtered, Preserve, BusinessFields;
    SecondPassEmptyIff(f, Origin(p));
    SecondIsClean(f, Origin(p));
  }

  lemma AfterNext(forms: Forms, f: Form, q: Payload, before: Payload)
    requires WellFormed(f) && forms(before.documentType) == Some(f) && q.documentType == before.documentType
    requires !HasFields(forms, q) && (HasFields(forms, before) ==> Clean(f, BusinessFields(forms, before)))
    ensures var current := Preserve(forms, q, Some(before));
      && (HasFields(forms, current) <==> HasFields(forms, before))
      && current.documentType == before.documentType
      && (HasFields(forms, current) ==> Clean(f, BusinessFields(forms, current)))
  {
    if HasFields(forms, before) {
      PreservedFields(forms, f, q, before);
      BusinessFiltered(forms, f, before);
      hide WellFormed, Clean, Filtered, Preserve, BusinessFields;
      CleanAgain(f, Origin(before));
    }
  }

  lemma LatestOne(forms: Forms, p: Payload)
    ensures Latest(forms, [p]) == Some(p)
  {
    assert Latest(forms, [p][..0]) == None;
  }

  // ----- a header that is a list is lost -----

  /** What a model may write for one field: its name and a list of values. */
  function Listed(l: string, values: seq<Json>): Json {
    Dict([Entry("field", Dict([Entry("field_name", Str(l)), Entry("value", List(values))]))])
  }

  lemma NamedCollected(f: Form, l: string, values: seq<Json>)
    requires WellFormed(f) && l in f.order && l != "line_items" && values != []
    ensures var named := Dict([Entry("field_name", Str(l)), Entry("value", List(values))]);
      Collected(f, map[], named, "field") == map[l := List(values)]
  {
    var entries := [Entry("field_name", Str(l)), Entry("value", List(values))];
    assert entries[1..][0] == Entry("value", List(values));
    assert Get(entries, "value") == Get(entries[1..], "value") == List(values);
    assert IsLabel(l);
    StripFixes(l);
    hide IsLabel, Strip, Trimmed, ScalarTexts;
    assert LabelOf(entries) == l;
  }

  lemma ListedCollected(f: Form, l: string, values: seq<Json>)
    requires WellFormed(f) && l in f.order && l != "line_items" && values != []
    ensures Collected(f, map[], Listed(l, values), "") == map[l := List(values)]
  {
    NamedCollected(f, l, values);
    var x := Listed(l, values);
    assert Get(x.entries, "field_name") == Null && Get(x.entries, "name") == Null by { assert x.entries[1..] == []; }
    assert Strip("") == "";
    hide WellFormed, Strip;
    assert CollectedEntries(f, map[], x, 0) == map[];
    assert CollectedEntries(f, map[], x, 1) == Collected(f, map[], x.entries[0].value, "field");
  }

  lemma ListedFiltered(f: Form, l: string, values: seq<Json>)
    requires WellFormed(f) && l in f.order && l != "line_items" && values != [] && Flat(List(values))
    ensures var d := Filtered(f, Listed(l, values)); d != [] && FlatFields(d) && !Durable(f, d)
  {
    var x := Listed(l, values);
    ListedCollected(f, l, values);
    var d := Filtered(f, x);
    hide Collected, WellFormed, Listed, Filtered;
    forall k ensures Get(d, k) == if k == l then List(values) else Null { FilteredGet(f, x, k); }
    OnlyOne(f, x, l, List(values));
    hide Blank, Flat;
    OutputFlat(f, x);
    assert Rows(d) == [] && NormalizeRows(f, []) == [];
  }

  lemma OnlyOne(f: Form, x: Json, l: string, v: Json)
    requires WellFormed(f) && v != Null && forall k :: Get(Filtered(f, x), k) == if k == l then v else Null
    ensures Filtered(f, x) != [] && forall i :: 0 <= i < |Filtered(f, x)| ==> Filtered(f, x)[i] == Entry(l, v)
  {
    var d := Filtered(f, x);
    FilterShape(f, x);
    hide Filtered, Sublist, WellFormed;
    forall i | 0 <= i < |d| ensures d[i] == Entry(l, v) { GetOf(d, i); }
    assert Get(d, l) != Null;
  }

  /**
   * A list of values for one label, on any known form: the field is found and shown, and the next analysis of the type
   * that finds nothing loses it, because what is preserved is filtered once more.
   */
  lemma {:induction false} ListHeaderLost(forms: Forms, f: Form, l: string, values: seq<Json>, p: Payload, q: Payload)
    requires WellFormed(f) && forms(p.documentType) == Some(f) && q.documentType == p.documentType
    requires l in f.order && l != "line_items" && values != [] && Flat(List(values))
    requires p.fields == Listed(l, values) && !HasFields(forms, q)
    ensures HasFields(forms, Latest(forms, [p]).value)
    ensures !HasFields(forms, After(forms, p, [q])) && Latest(forms, [p] + [q]) == Some(After(forms, p, [q]))
  {
    assert !Blank(p.fields.entries[0].value);
    assert Origin(p) == Listed(l, values);
    hide Blank, Listed, Filtered, FlatFields, Durable, WellFormed, BusinessFields, Latest, Preserve, Flat;
    BusinessFiltered(forms, f, p);
    ListedFiltered(f, l, values);
    LatestOne(forms, p);
    SurvivesIff(forms, f, p, [q]);
    LatestAfter(forms, p, [q]);
  }
}
