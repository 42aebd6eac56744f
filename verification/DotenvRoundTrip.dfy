/** The writer and the reader together: round trip, frame, idempotence, and the one family of values that is lost. */
module DotenvRoundTrip {
  import opened Text
  import opened Dotenv
  import opened DotenvLaws
  import opened DotenvText

  function Lines(text: Option<string>): seq<string> { match text case Some(t) => SplitLines(t) case None => [] }

  // ----- the rewritten lines -----

  lemma AssignmentOneLine(p: Pair)
    requires ValidKey(p.key) && Encode(p.value).Some? && OneLine(p.value)
    ensures OneLine(Assignment(p))
  {
    var q := Encode(p.value).value;
    assert OneLine(q) && OneLine("=");
    var s := Assignment(p);
    assert s == p.key + "=" + q;
    forall i | 0 <= i < |s| ensures !IsLineBreak(s[i]) {
      if i < |p.key| { assert s[i] == p.key[i]; }
      else if i > |p.key| { assert s[i] == q[i - |p.key| - 1]; }
    }
  }

  lemma {:induction false} UpdateOneLine(lines: seq<string>, values: seq<Pair>)
    requires AllOneLine(lines) && Writable(values) && OneLiners(values)
    ensures var (u, r) := Update(lines, values); AllOneLine(u) && Writable(r) && OneLiners(r)
  {
    if lines != [] {
      hide KeyOf, Assignment, OneLine, ValidKey, Encode;
      var i := Find(values, KeyOf(lines[0]));
      if i < |values| {
        WithoutWritable(values, i);
        AssignmentOneLine(values[i]);
        UpdateOneLine(lines[1..], Without(values, i));
      } else {
        UpdateOneLine(lines[1..], values);
      }
    }
  }

  lemma RewrittenOneLine(lines: seq<string>, values: seq<Pair>)
    requires AllOneLine(lines) && Writable(values) && OneLiners(values)
    ensures AllOneLine(Rewritten(lines, values))
  {
    UpdateOneLine(lines, values);
    var (u, r) := Update(lines, values);
    hide Update, Assignment, ValidKey, Encode, OneLine;
    assert OneLine("") by { BlankOneLine(); }
    forall i | 0 <= i < |r| ensures OneLine(Assignment(r[i])) { AssignmentOneLine(r[i]); }
  }

  lemma BlankOneLine()
    ensures OneLine("")
  {
  }

  lemma {:induction false} EntriesOfAssignments(values: seq<Pair>)
    requires Writable(values)
    ensures Entries(Assignments(values)) == values
  {
    hide Assignment, ReadLine;
    if values != [] {
      AssignmentReadsBack(values[0]);
      EntriesOfAssignments(values[1..]);
      assert Assignments(values)[1..] == Assignments(values[1..]);
      assert values == [values[0]] + values[1..];
    }
  }

  /** Reading the rewritten lines finds the new value of every written key and the old one of every other. */
  lemma RewrittenReads(lines: seq<string>, values: seq<Pair>, key: string)
    requires Writable(values)
    ensures Lookup(Entries(Rewritten(lines, values)), key) == OrElse(Lookup(values, key), Lookup(Entries(lines), key))
  {
    UpdateReads(lines, values, key);
    var (u, r) := Update(lines, values);
    hide Update, Entries, Lookup, Assignments, ReadLine, Strip;
    EntriesOfAssignments(r);
    EntriesOne("");
    assert ReadLine("").None? by { BlankReadsNothing(""); }
    EntriesAppend(u, [""]);
    EntriesAppend(u, Assignments(r));
    EntriesAppend(u + [""], Assignments(r));
    assert Entries(u) + [] == Entries(u);
    assert Entries(Rewritten(lines, values)) == Entries(u) + r;
    LookupAppend(Entries(u), r, key);
  }

  /** The file after a write, entry by entry: the round trip and the frame at once. */
  lemma PersistedReads(text: Option<string>, values: seq<Pair>, key: string)
    requires Writable(values) && OneLiners(values)
    ensures Lookup(Entries(SplitLines(Persisted(text, values))), key)
      == OrElse(Lookup(values, key), Lookup(Entries(Lines(text)), key))
  {
    var lines := Lines(text);
    assert AllOneLine(lines) by { if text.Some? { SplitLinesOneLine(text.value); } }
    hide SplitLines, Update, Entries, Lookup, StripRight, Join, Kept, OrElse, Rewritten;
    RewrittenOneLine(lines, values);
    SplitWritten(Rewritten(lines, values));
    KeptReads(Rewritten(lines, values));
    RewrittenReads(lines, values, key);
  }

  /**
   * A process that starts after the write sees every written value that its environment does not already set, and
   * everything else as before the write.
   */
  lemma StartAfterPersist(environ: map<string, string>, text: Option<string>, values: seq<Pair>, key: string)
    requires Writable(values) && OneLiners(values)
    ensures InMap(Read(environ, SplitLines(Persisted(text, values))), key)
         == if key in environ then Some(environ[key])
            else if Lookup(values, key).Some? then Lookup(values, key)
            else InMap(Read(environ, Lines(text)), key)
  {
    hide SplitLines, Persisted, Lookup, Entries, Lines;
    PersistedReads(text, values, key);
    ReadIsFirstWins(environ, SplitLines(Persisted(text, values)), key);
    ReadIsFirstWins(environ, Lines(text), key);
  }

  // ----- exactly which values survive -----

  lemma {:induction false} EntriesOneLine(lines: seq<string>)
    requires AllOneLine(lines)
    ensures forall p :: p in Entries(lines) ==> OneLine(p.value)
  {
    if lines != [] {
      EntriesOneLine(lines[1..]);
      ReadLineOneLine(lines[0]);
      hide ReadLine, OneLine;
    }
  }

  lemma StripOneLine(s: string)
    requires OneLine(s)
    ensures OneLine(Strip(s))
  {
    StripLeftTrims(s);
    StripRightTrims(StripLeft(s));
  }

  lemma ReadLineOneLine(line: string)
    requires OneLine(line)
    ensures ReadLine(line).Some? ==> OneLine(ReadLine(line).value.value)
  {
    hide FindEquals, Strip;
    StripOneLine(line);
    var s := Strip(line);
    var k := FindEquals(s);
    if k < |s| {
      assert OneLine(s[k + 1..]);
      StripOneLine(s[k + 1..]);
    }
  }

  lemma {:induction false} LookupIn(entries: seq<Pair>, key: string)
    ensures Lookup(entries, key).Some? ==> Pair(key, Lookup(entries, key).value) in entries
  {
    if entries != [] { LookupIn(entries[1..], key); }
  }

  lemma {:induction false} LookupOwn(values: seq<Pair>, i: nat)
    requires i < |values| && Writable(values)
    ensures Lookup(values, values[i].key) == Some(values[i].value)
  {
    hide ValidKey, Encode;
    if i > 0 { LookupOwn(values[1..], i - 1); }
  }

  /**
   * Whatever the file held, all accepted values are read back exactly when none of them has a line break: the writer
   * refuses only two of the characters the reader splits lines at.
   */
  lemma RoundTrip(text: Option<string>, values: seq<Pair>)
    requires Writable(values)
    ensures (forall i :: 0 <= i < |values| ==>
              Lookup(Entries(SplitLines(Persisted(text, values))), values[i].key) == Some(values[i].value))
        <==> OneLiners(values)
  {
    var found := Entries(SplitLines(Persisted(text, values)));
    SplitLinesOneLine(Persisted(text, values));
    EntriesOneLine(SplitLines(Persisted(text, values)));
    hide SplitLines, Persisted, Lookup, Entries, Lines, ValidKey, Encode, OneLine;
    forall i | 0 <= i < |values|
      ensures OneLiners(values) ==> Lookup(found, values[i].key) == Some(values[i].value)
      ensures Lookup(found, values[i].key) == Some(values[i].value) ==> OneLine(values[i].value)
    {
      LookupIn(found, values[i].key);
      LookupOwn(values, i);
      if OneLiners(values) { PersistedReads(text, values, values[i].key); }
    }
  }

  /** A form feed or a Unicode line separator is such a character: the value is accepted and then lost. */
  lemma AcceptedButLost(text: Option<string>)
    ensures forall c :: c in {'\U{b}', '\U{c}', '\U{85}', '\U{2028}'} ==>
              var v := ['a', c, 'b'];
              Encode(v).Some? && Lookup(Entries(SplitLines(Persisted(text, [Pair("K", v)]))), "K") != Some(v)
  {
    forall c | c in {'\U{b}', '\U{c}', '\U{85}', '\U{2028}'}
      ensures var v := ['a', c, 'b'];
              Encode(v).Some? && Lookup(Entries(SplitLines(Persisted(text, [Pair("K", v)]))), "K") != Some(v)
    {
      var v := ['a', c, 'b'];
      assert IsLineBreak(v[1]);
      var values := [Pair("K", v)];
      assert ValidKey("K") && Encode(v).Some?;
      assert !OneLine(values[0].value);
      hide SplitLines, Persisted, Lookup, Entries, Encode;
      RoundTrip(text, values);
    }
  }

  // ----- writing again -----

  lemma {:induction false} UpdateAppend(a: seq<string>, b: seq<string>, values: seq<Pair>)
    ensures var first := Update(a, values); var second := Update(b, first.1);
            Update(a + b, values) == (first.0 + second.0, second.1)
  {
    hide KeyOf, Assignment;
    if a == [] {
      assert a + b == b && [] + Update(b, values).0 == Update(b, values).0;
    } else {
      assert (a + b)[1..] == a[1..] + b;
      var i := Find(values, KeyOf(a[0]));
      var rest := if i < |values| then Without(values, i) else values;
      var line := if i < |values| then Assignment(values[i]) else a[0];
      UpdateAppend(a[1..], b, rest);
      ConcatAssociates([line], Update(a[1..], rest).0, Update(b, Update(a[1..], rest).1).0);
    }
  }

  lemma {:induction false} UpdateAgain(lines: seq<string>, values: seq<Pair>)
    requires Writable(values)
    ensures Update(Update(lines, values).0, values) == Update(lines, values)
  {
    if lines != [] {
      hide KeyOf, Assignment, ValidKey, Encode;
      var i := Find(values, KeyOf(lines[0]));
      var u := Update(lines, values).0;
      if i < |values| {
        AssignmentReadsBack(values[i]);
        WithoutWritable(values, i);
        UpdateAgain(lines[1..], Without(values, i));
        assert u[1..] == Update(lines[1..], Without(values, i)).0;
        assert Find(values, values[i].key) == i;
      } else {
        UpdateAgain(lines[1..], values);
        assert u[1..] == Update(lines[1..], values).0;
      }
    }
  }

  lemma UpdateOne(line: string, values: seq<Pair>)
    ensures var i := Find(values, KeyOf(line));
            Update([line], values) == if i < |values| then ([Assignment(values[i])], Without(values, i))
              else ([line], values)
  {
    var i := Find(values, KeyOf(line));
    hide KeyOf, Assignment;
    assert [line][1..] == [];
    if i < |values| { assert [Assignment(values[i])] + [] == [Assignment(values[i])]; }
      else { assert [line] + [] == [line]; }
  }

  lemma UpdateFirstOwn(values: seq<Pair>)
    requires Writable(values) && values != []
    ensures Update([Assignment(values[0])], values) == ([Assignment(values[0])], values[1..]) && Writable(values[1..])
  {
    var line := Assignment(values[0]);
    AssignmentReadsBack(values[0]);
    UpdateOne(line, values);
    hide KeyOf, Assignment, Update, ReadLine, ValidKey, Encode;
    assert Find(values, KeyOf(line)) == 0;
    assert Without(values, 0) == values[1..];
  }

  lemma {:induction false} UpdateOwn(values: seq<Pair>)
    requires Writable(values)
    ensures Update(Assignments(values), values) == (Assignments(values), [])
  {
    if values != [] {
      UpdateFirstOwn(values);
      AssignmentsCons(values);
      hide *;
      UpdateOwn(values[1..]);
      SettledTogether([Assignment(values[0])], Assignments(values[1..]), values[1..], values);
    } else {
      UpdateNothing(values);
    }
  }

  lemma AssignmentsCons(values: seq<Pair>)
    requires values != []
    ensures Assignments(values) == [Assignment(values[0])] + Assignments(values[1..])
  {
    hide Assignment;
  }

  lemma NoEmptyKey(values: seq<Pair>)
    requires Writable(values)
    ensures Find(values, "") == |values|
  {
    var i := Find(values, "");
    assert i < |values| ==> ValidKey(values[i].key);
  }

  /** A second pass over the rewritten lines finds everything in place. */
  lemma RewrittenSettled(lines: seq<string>, values: seq<Pair>)
    requires Writable(values)
    ensures Update(Rewritten(lines, values), values) == (Rewritten(lines, values), [])
  {
    UpdateAgain(lines, values);
    UpdateReads(lines, values, "");
    var (u, r) := Update(lines, values);
    assert KeyOf("") == "" by { BlankReadsNothing(""); }
    hide Update, Assignments, KeyOf, Strip, Lookup, Entries, Writable;
    NoEmptyKey(r);
    UpdateOne("", r);
    UpdateOwn(r);
    UpdateAppend(u, [""], values);
    UpdateAppend(u + [""], Assignments(r), values);
    UpdateAppend(u, Assignments(r), values);
  }

  lemma SettledParts(init: seq<string>, last: string, values: seq<Pair>)
    requires Writable(values) && Update(init + [last], values) == (init + [last], [])
    ensures Update(init, values).0 == init && Update([last], Update(init, values).1) == ([last], [])
    ensures Writable(Update(init, values).1)
  {
    UpdateReads(init, values, "");
    LengthOfUpdate(init, values);
    UpdateAppend(init, [last], values);
    hide Update, Writable, Entries, Lookup;
    var (u, r) := Update(init, values);
    assert (init + [last])[..|init|] == init && (u + Update([last], r).0)[..|init|] == u;
    assert (init + [last])[|init|..] == [last] && (u + Update([last], r).0)[|init|..] == Update([last], r).0;
  }

  lemma SettledTogether(a: seq<string>, b: seq<string>, r: seq<Pair>, values: seq<Pair>)
    requires Update(a, values) == (a, r) && Update(b, r) == (b, [])
    ensures Update(a + b, values) == (a + b, [])
  {
    hide *;
    UpdateAppend(a, b, values);
  }

  /** A pass over the lines changes nothing and finds every key. */
  predicate Settled(lines: seq<string>, values: seq<Pair>) { Update(lines, values) == (lines, []) }

  lemma SettledStep(init: seq<string>, last: string, values: seq<Pair>)
    requires Writable(values) && Settled(init + [last], values)
    ensures if StripRight(last) == "" then Settled(init, values) else Settled(init + [StripRight(last)], values)
  {
    hide StripRight, Update, Writable;
    SettledParts(init, last, values);
    var r := Update(init, values).1;
    if StripRight(last) == "" {
      BlankSettled(last, r);
    } else {
      LastSettled(last, r);
      SettledTogether(init, [StripRight(last)], r, values);
    }
  }

  /** Dropping blank lines at the end and blanks after the last one leaves the file settled. */
  lemma {:induction false} KeptSettled(lines: seq<string>, values: seq<Pair>)
    requires Writable(values) && Settled(lines, values)
    ensures Settled(Kept(lines), values)
  {
    KeptNothing();
    hide *;
    if lines == [] {
      NothingSettled(values);
      BlankSettled("", values);
    } else {
      var init, last := lines[..|lines| - 1], lines[|lines| - 1];
      assert init + [last] == lines;
      KeptSnoc(init, last);
      SettledStep(init, last, values);
      if StripRight(last) == "" { KeptSettled(init, values); }
    }
  }

  lemma NothingSettled(values: seq<Pair>)
    ensures Settled([], values) <==> values == []
  {
  }

  lemma KeptNothing()
    ensures Kept([]) == [""] && StripRight("") == ""
  {
  }

  lemma BlankSettled(line: string, values: seq<Pair>)
    requires Writable(values) && StripRight(line) == ""
    ensures Update([line], values) == ([line], values)
    ensures values == [] ==> Settled([line], values)
  {
    BlankReadsNothing(line);
    NoEmptyKey(values);
    hide KeyOf, Update, Assignment, Writable, StripRight, Find;
    UpdateOne(line, values);
  }

  lemma UpdateNothing(values: seq<Pair>)
    ensures Update([], values) == ([], values)
  {
  }

  lemma {:induction false} LengthOfUpdate(lines: seq<string>, values: seq<Pair>)
    ensures |Update(lines, values).0| == |lines|
  {
    if lines != [] {
      hide KeyOf, Assignment;
      var i := Find(values, KeyOf(lines[0]));
      LengthOfUpdate(lines[1..], if i < |values| then Without(values, i) else values);
    }
  }

  lemma LastSettled(last: string, values: seq<Pair>)
    requires Writable(values) && Update([last], values) == ([last], [])
    ensures Update([StripRight(last)], values) == ([StripRight(last)], [])
  {
    hide KeyOf, StripRight, Update, Assignment;
    UpdateOne(last, values);
    UpdateOne(StripRight(last), values);
    StripRightReads(last);
    var i := Find(values, KeyOf(last));
    if i < |values| {
      assert [last][0] == [Assignment(values[i])][0];
      AssignmentReadsBack(values[i]);
    }
  }

  lemma SettledRewrites(lines: seq<string>, values: seq<Pair>)
    requires Settled(lines, values)
    ensures Rewritten(lines, values) == lines
  {
    hide Update, Strip;
    assert Assignments([]) == [] && lines + [] == lines;
  }

  /** Writing the same values twice leaves the file as the first write left it. */
  lemma PersistIsIdempotent(text: Option<string>, values: seq<Pair>)
    requires Writable(values) && OneLiners(values)
    ensures Persisted(Some(Persisted(text, values)), values) == Persisted(text, values)
  {
    var lines := Lines(text);
    assert AllOneLine(lines) by { if text.Some? { SplitLinesOneLine(text.value); } }
    var r := Rewritten(lines, values);
    RewrittenSettled(lines, values);
    hide SplitLines, Update, StripRight, Rewritten, Join, Kept, Writable, OneLiners, AllOneLine;
    KeptSettled(r, values);
    SettledRewrites(Kept(r), values);
    RewrittenOneLine(lines, values);
    SplitWritten(r);
    JoinKept(r);
    StripRightOnce(Join(r, "\n"));
  }
}
