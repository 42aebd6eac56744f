/** Which table rows, cell by cell, the normalisation leaves alone. */
module RowFixpoint {
  import opened Text
  import opened DocumentFields
  import opened FilterLaws
  import opened FilterAgain

  // ----- the won sign -----

  /** No digit is followed by a won sign that would be dropped. */
  predicate WonFree(s: string) { forall i :: 0 < i < |s| && IsDigit(s[i - 1]) ==> WonWidth(s[i..]) == 0 }

  lemma {:induction false} DropWonShrinks(s: string, afterDigit: bool)
    ensures |DropWon(s, afterDigit)| <= |s|
    ensures |DropWon(s, afterDigit)| == |s| ==> DropWon(s, afterDigit) == s
    decreases |s|
  {
    if s != "" {
      hide WonWidth;
      if afterDigit && WonWidth(s) > 0 {
        DropWonShrinks(s[WonWidth(s)..], false);
      } else {
        DropWonShrinks(s[1..], IsDigit(s[0]));
      }
    }
  }

  lemma {:induction false} DropWonFixed(s: string, afterDigit: bool)
    ensures DropWon(s, afterDigit) == s <==> WonFree(s) && (afterDigit ==> WonWidth(s) == 0)
    decreases |s|
  {
    if s != "" {
      hide WonWidth, IsDigit;
      if afterDigit && WonWidth(s) > 0 {
        DropWonShrinks(s[WonWidth(s)..], false);
      } else {
        var rest := s[1..];
        DropWonFixed(rest, IsDigit(s[0]));
        assert DropWon(s, afterDigit) == [s[0]] + DropWon(rest, IsDigit(s[0])) && s == [s[0]] + rest;
        WonFreeCons(s);
      }
    } else {
      assert WonWidth("") == 0;
    }
  }

  lemma WonFreeCons(s: string)
    requires s != ""
    ensures WonFree(s) <==> WonFree(s[1..]) && (IsDigit(s[0]) ==> WonWidth(s[1..]) == 0)
  {
    hide WonWidth, IsDigit;
    var rest := s[1..];
    assert WonWidth("") == 0 by { NoWon(); }
    if WonFree(rest) && (IsDigit(s[0]) ==> WonWidth(rest) == 0) {
      forall i | 0 < i < |s| && IsDigit(s[i - 1]) ensures WonWidth(s[i..]) == 0 {
        if i > 1 { assert rest[i - 1..] == s[i..] && rest[i - 2] == s[i - 1]; }
      }
    }
    if WonFree(s) {
      forall i | 0 < i < |rest| && IsDigit(rest[i - 1]) ensures WonWidth(rest[i..]) == 0 {
        assert s[i + 1..] == rest[i..] && s[i + 1 - 1] == rest[i - 1];
      }
      if IsDigit(s[0]) {
        if |s| > 1 { assert IsDigit(s[1 - 1]); } else { assert rest == ""; }
      }
    }
  }

  lemma NoWon()
    ensures WonWidth("") == 0
  {
  }

  lemma StripShrinks(s: string)
    ensures |Strip(s)| <= |s|
  {
    StripLeftTrims(s);
    StripRightTrims(StripLeft(s));
  }

  /**
   * Stripping the won sign leaves exactly the trimmed texts alone in which no digit is followed by a droppable sign.
   */
  lemma StripWonFixedIff(s: string)
    ensures StripWon(s) == s <==> Trimmed(s) && WonFree(s)
  {
    DropWonFixed(s, false);
    DropWonShrinks(s, false);
    StripShrinks(DropWon(s, false));
    StripTrims(DropWon(s, false));
    hide Strip, DropWon, WonFree, Trimmed;
    if Trimmed(s) && WonFree(s) { StripFixes(s); }
  }

  // ----- cells -----

  /** A price is settled when it is no text at all, or a trimmed one without a droppable won sign. */
  predicate SettledCell(field: string, v: Json) {
    (field == "U/Price" || field == "Amount") && ValueText(v) != "" ==> v.Str? && Trimmed(v.text) && WonFree(v.text)
  }

  lemma CellFixedIff(field: string, v: Json)
    ensures CellValue(field, v) == v <==> SettledCell(field, v)
  {
    var text := ValueText(v);
    StripTrims(StrOf(v));
    StripWonFixedIff(text);
    if v.Str? { StripWonFixedIff(v.text); }
    hide StripWon, WonFree;
    if (field == "U/Price" || field == "Amount") && text != "" {
      if v.Str? && Trimmed(v.text) { StripFixes(v.text); }
      if CellValue(field, v) == v {
        assert v == Str(StripWon(text));
        StripWonTrimmed(text);
        StripFixes(v.text);
      }
    }
  }

  lemma StripWonTrimmed(s: string)
    ensures Trimmed(StripWon(s))
  {
    StripTrims(DropWon(s, false));
  }

  // ----- rows -----

  /** An object whose keys are distinct columns of the form, all filled, with settled prices. */
  predicate NormalRow(f: Form, row: Json) {
    && row.Dict? && row.entries != [] && DistinctKeys(row.entries)
    && forall i :: 0 <= i < |row.entries| ==> NormalEntry(f, row.entries[i])
  }

  predicate NormalEntry(f: Form, e: Entry) { FilledColumn(f, e) && SettledCell(e.key, e.value) }

  predicate FilledColumn(f: Form, e: Entry) { e.key in f.columns && !Blank(e.value) }

  predicate NormalRows(f: Form, rows: seq<Json>) { forall i :: 0 <= i < |rows| ==> NormalRow(f, rows[i]) }

  lemma {:induction false} PutAbsent(entries: seq<Entry>, key: string, value: Json)
    requires !HasKey(entries, key)
    ensures Put(entries, key, value) == entries + [Entry(key, value)]
  {
    if entries != [] {
      assert entries[0].key != key;
      forall i | 0 <= i < |entries[1..]| ensures entries[1..][i].key != key { assert entries[i + 1].key != key; }
      PutAbsent(entries[1..], key, value);
    }
  }

  lemma {:induction false} PutDistinct(entries: seq<Entry>, key: string, value: Json)
    requires DistinctKeys(entries)
    ensures DistinctKeys(Put(entries, key, value))
  {
    if entries != [] && entries[0].key != key {
      PutDistinct(entries[1..], key, value);
      PutEntries(entries[1..], key, value);
      var rest := Put(entries[1..], key, value);
      forall i | 0 <= i < |rest| ensures rest[i].key != entries[0].key { assert rest[i] in rest; }
    }
  }

  lemma {:induction false} CellsDistinct(f: Form, entries: seq<Entry>, k: nat)
    requires k <= |entries|
    ensures DistinctKeys(Cells(f, entries, k))
  {
    if k > 0 {
      hide Strip, Blank, CellValue, DistinctKeys;
      CellsDistinct(f, entries, k - 1);
      var e := entries[k - 1];
      PutDistinct(Cells(f, entries, k - 1), Strip(e.key), CellValue(Strip(e.key), e.value));
    }
    assert DistinctKeys([]);
  }

  lemma ColumnTrimmed(f: Form, key: string)
    requires WellFormed(f) && key in f.columns
    ensures Strip(key) == key
  {
    assert IsLabel(key);
    StripFixes(key);
  }

  /** The cells of distinct filled columns are taken over one by one. */
  lemma {:induction false} CellsOneByOne(f: Form, entries: seq<Entry>, k: nat)
    requires WellFormed(f) && k <= |entries| && DistinctKeys(entries)
    requires forall i :: 0 <= i < |entries| ==> FilledColumn(f, entries[i])
    ensures |Cells(f, entries, k)| == k
    ensures forall i :: 0 <= i < k
              ==> Cells(f, entries, k)[i] == Entry(entries[i].key, CellValue(entries[i].key, entries[i].value))
  {
    hide Strip, Blank, CellValue, WellFormed, FilledColumn;
    if k > 0 {
      CellsOneByOne(f, entries, k - 1);
      var e := entries[k - 1];
      var before := Cells(f, entries, k - 1);
      CellStep(f, entries, k);
      forall i | 0 <= i < |before| ensures before[i].key != e.key { assert before[i].key == entries[i].key; }
      hide Cells, DistinctKeys;
      PutAbsent(before, e.key, CellValue(e.key, e.value));
    }
  }

  lemma CellStep(f: Form, entries: seq<Entry>, k: nat)
    requires WellFormed(f) && 0 < k <= |entries| && FilledColumn(f, entries[k - 1])
    ensures var e := entries[k - 1];
      Cells(f, entries, k) == Put(Cells(f, entries, k - 1), e.key, CellValue(e.key, e.value))
  {
    ColumnTrimmed(f, entries[k - 1].key);
    hide Strip, Blank, CellValue, WellFormed;
  }

  /** Normalisation leaves a row alone exactly when it is normal. */
  lemma RowFixedIff(f: Form, row: Json)
    requires WellFormed(f)
    ensures NormalizeRow(f, row) != [] && Dict(NormalizeRow(f, row)) == row <==> NormalRow(f, row)
  {
    if row.Dict? {
      var entries := row.entries;
      CellsDistinct(f, entries, |entries|);
      CellsKept(f, entries, |entries|);
      hide Cells, Blank, CellValue, SettledCell, WellFormed;
      if NormalRow(f, row) {
        forall i | 0 <= i < |entries| ensures FilledColumn(f, entries[i]) { assert NormalEntry(f, entries[i]); }
        CellsOneByOne(f, entries, |entries|);
        forall i | 0 <= i < |entries| ensures NormalizeRow(f, row)[i] == entries[i] {
          assert NormalEntry(f, entries[i]);
          CellFixedIff(entries[i].key, entries[i].value);
        }
        assert NormalizeRow(f, row) == entries;
      }
      if NormalizeRow(f, row) == entries && entries != [] {
        forall i | 0 <= i < |entries| ensures FilledColumn(f, entries[i]) { assert entries[i] in NormalizeRow(f, row); }
        CellsOneByOne(f, entries, |entries|);
        forall i | 0 <= i < |entries| ensures NormalEntry(f, entries[i]) {
          assert FilledColumn(f, entries[i]);
          CellFixedIff(entries[i].key, entries[i].value);
        }
      }
    }
  }

  /** And a table exactly when all its rows are. */
  lemma {:induction false} RowsFixedIff(f: Form, rows: seq<Json>)
    requires WellFormed(f)
    ensures NormalizeRows(f, rows) == rows <==> NormalRows(f, rows)
  {
    if rows != [] {
      var row, rest := rows[0], rows[1..];
      RowFixedIff(f, row);
      RowsFixedIff(f, rest);
      NormalizeRowsKept(f, rest);
      hide NormalizeRow, NormalRow, WellFormed;
      assert rows == [row] + rest;
      var head := NormalizeRow(f, row);
      assert NormalizeRows(f, rows) == (if head == [] then [] else [Dict(head)]) + NormalizeRows(f, rest);
      if head != [] {
        assert NormalizeRows(f, rows)[1..] == NormalizeRows(f, rest) && NormalizeRows(f, rows)[0] == Dict(head);
      }
      NormalRowsCons(f, rows);
    }
  }

  lemma NormalRowsCons(f: Form, rows: seq<Json>)
    requires rows != []
    ensures NormalRows(f, rows) <==> NormalRow(f, rows[0]) && NormalRows(f, rows[1..])
  {
    hide NormalRow;
    if NormalRow(f, rows[0]) && NormalRows(f, rows[1..]) {
      forall i | 0 <= i < |rows| ensures NormalRow(f, rows[i]) { if i > 0 { assert rows[1..][i - 1] == rows[i]; } }
    }
  }
}
