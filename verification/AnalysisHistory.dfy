/** Stored attachment analyses: a new one retires the current one, but must not replace extracted fields by none. */
module AnalysisHistory {
  import opened Text
  import opened DocumentFields
  import opened FilterLaws
  import opened FilterAgain
  import opened FilterFixpoint

  datatype Option<+T> = None | Some(value: T)

  /** An analysis result; the document type is the canonical one. */
  datatype Payload = Payload(documentType: string, fields: Json, extractedFields: Json, warnings: seq<string>,
      summary: string)

  datatype Stored = Stored(attachment: nat, payload: Payload, current: bool)

  datatype Saved = Saved(attachment: nat, payload: Payload)

  /** The form of a document type, if it has a fixed one. */
  type Forms = string -> Option<Form>

  const PRESERVED := "preserved_previous_business_fields"

  // ----- preserving -----

  predicate Presents(v: Json) { v.Dict? && exists i :: 0 <= i < |v.entries| && !Blank(v.entries[i].value) }

  function FilterFor(forms: Forms, documentType: string, fields: Json): seq<Entry>
    requires fields.Dict?
  {
    match forms(documentType) case Some(f) => Filtered(f, fields) case None => fields.entries
  }

  function BusinessFields(forms: Forms, p: Payload): seq<Entry> {
    if Presents(p.fields) then FilterFor(forms, p.documentType, p.fields)
    else if Presents(p.extractedFields) then FilterFor(forms, p.documentType, p.extractedFields)
    else []
  }

  predicate HasFields(forms: Forms, p: Payload) { BusinessFields(forms, p) != [] }

  /** `preserve_current_business_fields` */
  function Preserve(forms: Forms, result: Payload, current: Option<Payload>): Payload {
    if current.None? || HasFields(forms, result) || !HasFields(forms, current.value)
       || result.documentType != current.value.documentType then result
    else
      result.(fields := Dict(BusinessFields(forms, current.value)),
            warnings := if PRESERVED in result.warnings then result.warnings else result.warnings + [PRESERVED],
            summary := if Strip(result.summary) == "" then current.value.summary else result.summary)
  }

  // ----- the table -----

  /** The newest current row of an attachment. */
  function CurrentOf(rows: seq<Stored>, attachment: nat): Option<Payload> {
    if rows == [] then None
    else
      var last := rows[|rows| - 1];
      if last.attachment == attachment && last.current then Some(last.payload)
        else CurrentOf(rows[..|rows| - 1], attachment)
  }

  function Retired(rows: seq<Stored>, attachment: nat): (r: seq<Stored>)
    ensures |r| == |rows|
    ensures forall i :: 0 <= i < |r| ==>
      r[i] == if rows[i].attachment == attachment then rows[i].(current := false) else rows[i]
  {
    seq(|rows|, i requires 0 <= i < |rows| =>
      if rows[i].attachment == attachment then rows[i].(current := false) else rows[i])
  }

  function Save(forms: Forms, rows: seq<Stored>, s: Saved): seq<Stored> {
    Retired(rows, s.attachment)
      + [Stored(s.attachment, Preserve(forms, s.payload, CurrentOf(rows, s.attachment)), true)]
  }

  /** The table after a run of saves, from an empty one. */
  function Run(forms: Forms, saves: seq<Saved>): seq<Stored> {
    if saves == [] then [] else Save(forms, Run(forms, saves[..|saves| - 1]), saves[|saves| - 1])
  }

  class AttachmentAnalysisRepository {
    const forms: Forms
    var rows: seq<Stored>

    constructor (forms: Forms)
      ensures this.forms == forms && rows == []
    {
      this.forms := forms;
      rows := [];
    }

    /** One transaction: read the current row, retire it, insert the new one. */
    method SaveResult(attachment: nat, result: Payload)
      modifies this`rows
      ensures rows == Save(forms, old(rows), Saved(attachment, result))
    {
      hide Preserve;
      var current: Option<Payload> := None;
      for i := 0 to |rows|
        invariant rows == old(rows) && current == CurrentOf(rows[..i], attachment)
      {
        assert rows[..i + 1][..i] == rows[..i];
        if rows[i].attachment == attachment && rows[i].current {
          current := Some(rows[i].payload);
        }
      }
      assert rows[..|rows|] == rows;
      var payload := Preserve(forms, result, current);
      var retired: seq<Stored> := [];
      for i := 0 to |rows|
        invariant rows == old(rows) && |retired| == i
        invariant forall k :: 0 <= k < i ==>
          retired[k] == if rows[k].attachment == attachment then rows[k].(current := false) else rows[k]
      {
        retired := retired + [if rows[i].attachment == attachment then rows[i].(current := false) else rows[i]];
      }
      assert retired == Retired(rows, attachment);
      rows := retired + [Stored(attachment, payload, true)];
    }
  }

  // ----- one attachment is a fold over its own saves -----

  function Of(saves: seq<Saved>, attachment: nat): seq<Payload> {
    if saves == [] then [] else
    Of(saves[..|saves| - 1], attachment)
    + if saves[|saves| - 1].attachment == attachment then [saves[|saves| - 1].payload] else []
  }

  /** What a series of payloads for one attachment leaves as its current one. */
  function Latest(forms: Forms, payloads: seq<Payload>): Option<Payload> {
    if payloads == [] then None
    else Some(Preserve(forms, payloads[|payloads| - 1], Latest(forms, payloads[..|payloads| - 1])))
  }

  lemma {:induction false} RetiredCurrent(rows: seq<Stored>, a: nat, b: nat)
    ensures CurrentOf(Retired(rows, a), b) == if a == b then None else CurrentOf(rows, b)
  {
    if rows != [] {
      var init := rows[..|rows| - 1];
      RetiredCurrent(init, a, b);
      assert Retired(rows, a)[..|rows| - 1] == Retired(init, a);
    }
  }

  /** After any run, the current row of an attachment depends on its own saves alone, and is the only current one. */
  lemma {:induction false} CurrentIsLatest(forms: Forms, saves: seq<Saved>, attachment: nat)
    ensures CurrentOf(Run(forms, saves), attachment) == Latest(forms, Of(saves, attachment))
    ensures |Run(forms, saves)| == |saves|
    ensures var rows := Run(forms, saves);
      forall i, j :: 0 <= i < j < |rows| && rows[i].attachment == attachment == rows[j].attachment ==> !rows[i].current
  {
    if saves != [] {
      hide Preserve;
      var init, s := saves[..|saves| - 1], saves[|saves| - 1];
      CurrentIsLatest(forms, init, attachment);
      var rows := Run(forms, init);
      RetiredCurrent(rows, s.attachment, attachment);
      var after := Run(forms, saves);
      assert after[..|saves| - 1] == Retired(rows, s.attachment);
      var own := Of(init, attachment);
      if s.attachment == attachment {
        assert (own + [s.payload])[..|own|] == own;
      } else {
        assert own + [] == own;
      }
    }
  }
}
