/** The fixed-schema field filter: which fields of a nested, model-written payload a known form keeps. */
module DocumentFields {
  import opened Text

  // ----- JSON payloads -----

  /** A number is known by what `str` prints for it and by whether it is zero. */
  datatype Json =
    | Null
    | Bool(flag: bool)
    | Num(digits: string, zero: bool)
    | Str(text: string)
    | List(items: seq<Json>)
    | Dict(entries: seq<Entry>)

  datatype Entry = Entry(key: string, value: Json)

  /** `value in (None, "", [], {})` */
  predicate Blank(v: Json) { v == Null || v == Str("") || v == List([]) || v == Dict([]) }

  predicate Scalar(v: Json) { !v.List? && !v.Dict? }

  predicate Truthy(v: Json) {
    match v
    case Null => false
    case Bool(b) => b
    case Num(_, zero) => !zero
    case Str(s) => s != ""
    case List(items) => items != []
    case Dict(entries) => entries != []
  }

  /** `str(value)`; the text of a list or an object is never compared with anything it could equal. */
  function StrOf(v: Json): string {
    match v
    case Null => "None"
    case Bool(b) => if b then "True" else "False"
    case Num(digits, _) => digits
    case Str(s) => s
    case List(_) => "[...]"
    case Dict(_) => "{...}"
  }

  function ValueText(v: Json): string { if Blank(v) then "" else Strip(StrOf(v)) }

  /** `entries.get(key)` */
  function Get(entries: seq<Entry>, key: string): Json {
    if entries == [] then Null else if entries[0].key == key then entries[0].value else Get(entries[1..], key)
  }

  predicate HasKey(entries: seq<Entry>, key: string) { exists i :: 0 <= i < |entries| && entries[i].key == key }

  /** `entries[key] = value`: in place when the key is there, at the end otherwise. */
  function Put(entries: seq<Entry>, key: string, value: Json): seq<Entry> {
    if entries == [] then [Entry(key, value)]
    else if entries[0].key == key then [Entry(key, value)] + entries[1..]
    else [entries[0]] + Put(entries[1..], key, value)
  }

  // ----- forms -----

  /** A form: its labels in display order, and the columns its table rows keep (none for forms without a table). */
  datatype Form = Form(order: seq<string>, columns: seq<string>)

  const QUOTE :=
    Form(["To", "Attn", "Your Ref No", "Date", "Our Ref No", "In Charge", "Tel", "Vessel", "Total Price", "line_items"],
                      ["Description", "Qty", "Unit", "U/Price", "Amount"])
  const RFQ := Form(["To", "Attn", "Email", "Fax", "Vessel", "Date", "Our Ref No", "In Charge", "Tel", "line_items"],
                    ["No", "Description", "Code", "Qty", "Unit"])

  const PAYMENT_REQUEST := Form([
    "To", "Attn", "Add", "Tel", "Your Ref. No.", "공급자 - 등록번호", "공급자 - 상호", "공급자 - 소재지", "공급자 - 계좌번호",
    "입금요청일", "No.", "Description", "Qty", "Unit", "U/Price", "Amount", "소계(VAT제외)", "합계(VAT포함)"], [])
  const TRANSACTION_STATEMENT := Form([
    "VESSEL", "YOUR REF NO", "출고일", "공급받는자-등록번호", "공급받는자-상호(법인명)", "공급받는자-사업장 주소",
    "공급받는자-전화번호", "공급자-등록번호", "공급자-상호(법인명)", "공급자-성명(대표자)", "공급자-사업장 주소", "공급자-업태",
    "공급자-종목", "공급자-계좌번호", "합계금액", "No", "Description", "Qty", "Unit", "U/Price", "Amount", "공급가액", "세액",
    "비고", "인수자"], [])

  predicate Special(field: string) {
    field in {"field_name", "name", "value", "line_items", "dates", "reference_numbers"}
  }

  /** What the proofs need of a form: plain, distinct labels; the rows, if any, come last. */
  ghost predicate WellFormed(f: Form) {
    && (forall i :: 0 <= i < |f.order| && f.order[i] != "line_items" ==> IsLabel(f.order[i]) && !Special(f.order[i]))
    && (forall i, j :: 0 <= i < j < |f.order| ==> f.order[i] != f.order[j])
    && (forall i :: 0 <= i < |f.columns| ==> IsLabel(f.columns[i]))
    && (f.columns != [] ==> f.order != [] && f.order[|f.order| - 1] == "line_items")
  }

  predicate IsLabel(field: string) { field != "" && Trimmed(field) }

  // ----- table rows -----

  /** The position behind `\s*` and the won sign at the front of `s`, when no letter follows; 0 otherwise. */
  function WonWidth(s: string): (r: nat)
    ensures r <= |s|
  {
    if s == "" then 0
    else if s[0] == '원' then (if |s| > 1 && IsLetter(s[1]) then 0 else 1)
    else if IsSpace(s[0]) then (var w := WonWidth(s[1..]); if w == 0 then 0 else w + 1)
    else 0
  }

  /** The substitution of `_strip_korean_won_unit`, left to right. */
  function DropWon(s: string, afterDigit: bool): string
    decreases |s|
  {
    if s == "" then ""
    else if afterDigit && WonWidth(s) > 0 then DropWon(s[WonWidth(s)..], false)
    else [s[0]] + DropWon(s[1..], IsDigit(s[0]))
  }

  function StripWon(s: string): string { Strip(DropWon(s, false)) }

  function CellValue(field: string, value: Json): Json {
    if field != "U/Price" && field != "Amount" then value
    else if ValueText(value) == "" then value
    else Str(StripWon(ValueText(value)))
  }

  /** The cells of the first `k` entries, kept under their column. */
  function Cells(f: Form, entries: seq<Entry>, k: nat): seq<Entry>
    requires k <= |entries|
  {
    if k == 0 then [] else
    var e := entries[k - 1];
    var before := Cells(f, entries, k - 1);
    if Strip(e.key) in f.columns && !Blank(e.value) then Put(before, Strip(e.key), CellValue(Strip(e.key), e.value))
      else before
  }

  function NormalizeRow(f: Form, row: Json): seq<Entry> {
    if row.Dict? then Cells(f, row.entries, |row.entries|) else []
  }

  function NormalizeRows(f: Form, rows: seq<Json>): seq<Json> {
    if rows == [] then [] else
    (var row := NormalizeRow(f, rows[0]); if row == [] then [] else [Dict(row)]) + NormalizeRows(f, rows[1..])
  }

  method NormalizeLineItem(f: Form, item: Json) returns (normalized: seq<Entry>)
    ensures normalized == NormalizeRow(f, item)
  {
    hide Strip, Blank, Put, CellValue;
    normalized := [];
    if !item.Dict? {
      return;
    }
    for k := 0 to |item.entries|
      invariant normalized == Cells(f, item.entries, k)
    {
      var field, value := Strip(item.entries[k].key), item.entries[k].value;
      if field in f.columns && !Blank(value) {
        normalized := Put(normalized, field, CellValue(field, value));
      }
    }
  }

  // ----- collecting -----

  type Fields = map<string, Json>

  function SetAllowed(f: Form, n: Fields, field: string, value: Json): Fields {
    if Strip(field) in f.order && !Blank(value) then n[Strip(field) := value] else n
  }

  /** `str(item.get("field_name") or item.get("name") or "").strip()` */
  function LabelOf(entries: seq<Entry>): string {
    var a, b := Get(entries, "field_name"), Get(entries, "name");
    Strip(if Truthy(a) then StrOf(a) else if Truthy(b) then StrOf(b) else "")
  }

  /** The texts of the scalar children. */
  function ScalarTexts(items: seq<Json>): (r: seq<string>)
    ensures forall i :: 0 <= i < |r| ==> r[i] != ""
  {
    if items == [] then [] else
    (if Scalar(items[0]) && ValueText(items[0]) != "" then [ValueText(items[0])] else []) + ScalarTexts(items[1..])
  }

  function Collected(f: Form, n: Fields, item: Json, fallback: string): Fields
    decreases item, 1, 0
  {
    if Blank(item) then n
    else match item
      case List(items) =>
        var texts := ScalarTexts(items);
        if fallback == "line_items" then
          var rows := NormalizeRows(f, items);
          if rows == [] then n else n["line_items" := List(rows)]
        else if fallback == "dates" && texts != [] then SetAllowed(f, n, "Date", Str(texts[0]))
        else if fallback == "reference_numbers" && texts != [] then
          var first := SetAllowed(f, n, "Our Ref No", Str(texts[0]));
          if |texts| > 1 then SetAllowed(f, first, "Your Ref No", Str(texts[1])) else first
        else CollectedItems(f, n, item, |items|)
      case Dict(entries) =>
        if LabelOf(entries) != "" && !Blank(Get(entries, "value"))
          then SetAllowed(f, n, LabelOf(entries), Get(entries, "value"))
        else CollectedEntries(f, n, item, |entries|)
      case _ => if fallback != "" then SetAllowed(f, n, fallback, item) else n
  }

  /** After the first `k` children of a list. */
  function CollectedItems(f: Form, n: Fields, item: Json, k: nat): Fields
    requires item.List? && k <= |item.items|
    decreases item, 0, k
  {
    if k == 0 then n else Collected(f, CollectedItems(f, n, item, k - 1), item.items[k - 1], "")
  }

  /** After the first `k` entries of an object. */
  function CollectedEntries(f: Form, n: Fields, item: Json, k: nat): Fields
    requires item.Dict? && k <= |item.entries|
    decreases item, 0, k
  {
    if k == 0 then n else
    var before := CollectedEntries(f, n, item, k - 1);
    var e := item.entries[k - 1];
    if e.key in {"field_name", "name", "value"} then before else Collected(f, before, e.value, e.key)
  }

  // ----- the filter -----

  /** The collected headers, in the order of the form. */
  function Ordered(labels: seq<string>, n: Fields): seq<Entry> {
    if labels == [] then [] else
    var l := labels[0];
    (if l != "line_items" && l in n && !Blank(n[l]) then [Entry(l, n[l])] else []) + Ordered(labels[1..], n)
  }

  /** The collected rows, when the form has a table. */
  function RowPart(f: Form, n: Fields): seq<Entry> {
    if f.columns != [] && "line_items" in n && n["line_items"].List? && n["line_items"] != List([])
    then [Entry("line_items", n["line_items"])] else []
  }

  /** `filter_predefined_document_fields` for a known form. */
  function Filtered(f: Form, fields: Json): seq<Entry> {
    var n := Collected(f, map[], fields, "");
    Ordered(f.order, n) + RowPart(f, n)
  }

  class FieldCollector {
    var normalized: Fields

    constructor ()
      ensures normalized == map[]
    {
      normalized := map[];
    }

    method SetAllowedField(f: Form, field: string, value: Json)
      modifies this
      ensures normalized == SetAllowed(f, old(normalized), field, value)
    {
      var exact := Strip(field);
      if exact in f.order && !Blank(value) {
        normalized := normalized[exact := value];
      }
    }

    method Collect(f: Form, item: Json, fallback: string)
      modifies this
      ensures normalized == Collected(f, old(normalized), item, fallback)
      decreases item
    {
      hide Strip, Blank, Truthy, StrOf, ScalarTexts, LabelOf, SetAllowed;
      if Blank(item) {
        return;
      }
      if item.List? {
        var texts := ScalarTexts(item.items);
        if fallback == "line_items" {
          var rows := NormalizeRows(f, item.items);
          if rows != [] {
            normalized := normalized["line_items" := List(rows)];
          }
          return;
        }
        if fallback == "dates" && texts != [] {
          SetAllowedField(f, "Date", Str(texts[0]));
          return;
        }
        if fallback == "reference_numbers" && texts != [] {
          SetAllowedField(f, "Our Ref No", Str(texts[0]));
          if |texts| > 1 {
            SetAllowedField(f, "Your Ref No", Str(texts[1]));
          }
          return;
        }
        for k := 0 to |item.items|
          invariant normalized == CollectedItems(f, old(normalized), item, k)
        {
          Collect(f, item.items[k], "");
        }
      } else if item.Dict? {
        var field, value := LabelOf(item.entries), Get(item.entries, "value");
        if field != "" && !Blank(value) {
          SetAllowedField(f, field, value);
          return;
        }
        for k := 0 to |item.entries|
          invariant normalized == CollectedEntries(f, old(normalized), item, k)
        {
          var e := item.entries[k];
          if e.key in {"field_name", "name", "value"} {
            continue;
          }
          Collect(f, e.value, e.key);
        }
      } else if fallback != "" {
        SetAllowedField(f, fallback, item);
      }
    }
  }

  method FilterPredefinedFields(f: Form, fields: Json) returns (ordered: seq<Entry>)
    ensures ordered == Filtered(f, fields)
  {
    var collector := new FieldCollector();
    collector.Collect(f, fields, "");
    var n := collector.normalized;
    ordered := [];
    hide Collected, Blank;
    assert f.order[0..] == f.order && [] + Ordered(f.order, n) == Ordered(f.order, n);
    for i := 0 to |f.order|
      invariant Ordered(f.order, n) == ordered + Ordered(f.order[i..], n)
    {
      var field := f.order[i];
      assert f.order[i..][1..] == f.order[i + 1..];
      if field != "line_items" && field in n && !Blank(n[field]) {
        ConcatAssociates(ordered, [Entry(field, n[field])], Ordered(f.order[i + 1..], n));
        ordered := ordered + [Entry(field, n[field])];
      } else {
        assert [] + Ordered(f.order[i + 1..], n) == Ordered(f.order[i + 1..], n);
      }
    }
    assert ordered + [] == ordered;
    if f.columns != [] && "line_items" in n && n["line_items"].List? && n["line_items"].items != [] {
      ordered := ordered + [Entry("line_items", n["line_items"])];
    }
  }
}
