/** What joining, stripping and splitting again do to the lines of a dotenv file. */
module DotenvText {
  import opened Text
  import opened Dotenv
  import opened DotenvLaws

  /**
   * The lines found in a written file: blank lines at the end are gone and the last line has lost its trailing blanks.
   */
  function Kept(lines: seq<string>): (r: seq<string>)
    ensures r != []
  {
    if lines == [] then [""]
    else
      var init, last := lines[..|lines| - 1], StripRight(lines[|lines| - 1]);
      if last == "" then Kept(init) else init + [last]
  }

  // ----- stripping -----

  lemma {:induction false} StripRightConcat(a: string, b: string)
    ensures StripRight(a + b) == if StripRight(b) == "" then StripRight(a) else a + StripRight(b)
    decreases |b|
  {
    if b == "" {
      assert a + b == a;
    } else {
      var init := b[..|b| - 1];
      assert (a + b)[..|a + b| - 1] == a + init;
      if IsSpace(b[|b| - 1]) { StripRightConcat(a, init); }
    }
  }

  lemma {:induction false} StripRightOnce(s: string)
    ensures StripRight(StripRight(s)) == StripRight(s)
  {
    StripRightTrims(s);
  }

  lemma {:induction false} StripLeftConcat(a: string, b: string)
    ensures StripLeft(a + b) == if StripLeft(a) == "" then StripLeft(b) else StripLeft(a) + b
  {
    if a == "" {
      assert a + b == b;
    } else {
      assert (a + b)[1..] == a[1..] + b;
      if IsSpace(a[0]) { StripLeftConcat(a[1..], b); }
    }
  }

  /** Trailing blanks make no difference to a strip. */
  lemma {:induction false} StripAfterStripRight(s: string)
    ensures Strip(StripRight(s)) == Strip(s)
    decreases |s|
  {
    if s != "" && IsSpace(s[|s| - 1]) {
      var init, c := s[..|s| - 1], [s[|s| - 1]];
      StripAfterStripRight(init);
      assert init + c == s;
      StripLeftConcat(init, c);
      assert StripRight(c[..0]) == "" && StripRight(c) == "" && StripLeft(c[1..]) == "" && StripLeft(c) == "";
      StripRightConcat(StripLeft(init), c);
    }
  }

  lemma StripRightReads(line: string)
    ensures ReadLine(StripRight(line)) == ReadLine(line) && KeyOf(StripRight(line)) == KeyOf(line)
  {
    StripAfterStripRight(line);
  }

  lemma BlankReadsNothing(line: string)
    requires StripRight(line) == ""
    ensures ReadLine(line) == None && KeyOf(line) == ""
  {
    StripRightReads(line);
  }

  lemma {:induction false} KeptReads(lines: seq<string>)
    ensures Entries(Kept(lines)) == Entries(lines)
  {
    if lines != [] {
      hide ReadLine, KeyOf, StripRight;
      var init, last := lines[..|lines| - 1], lines[|lines| - 1];
      assert init + [last] == lines;
      EntriesAppend(init, [last]);
      EntriesOne(last);
      if StripRight(last) == "" {
        KeptReads(init);
        BlankReadsNothing(last);
      } else {
        StripRightReads(last);
        EntriesAppend(init, [StripRight(last)]);
        EntriesOne(StripRight(last));
      }
    } else {
      EntriesOne("");
      assert Strip("") == "";
    }
  }

  lemma EntriesOne(line: string)
    ensures Entries([line]) == match ReadLine(line) case Some(p) => [p] case None => []
  {
    hide ReadLine;
    assert Entries([line][1..]) == [];
  }

  // ----- joining -----

  lemma {:induction false} JoinSnoc(lines: seq<string>, last: string)
    requires lines != []
    ensures Join(lines + [last], "\n") == Join(lines, "\n") + ("\n" + last)
  {
    assert (lines + [last])[1..] == lines[1..] + [last];
    if |lines| == 1 {
      assert lines[1..] + [last] == [last];
      ConcatAssociates(lines[0], "\n", last);
    } else {
      JoinSnoc(lines[1..], last);
      ConcatAssociates(lines[0] + "\n", Join(lines[1..], "\n"), "\n" + last);
    }
  }

  /** The text written for some lines is exactly its kept lines, joined. */
  lemma {:induction false} JoinKept(lines: seq<string>)
    ensures StripRight(Join(lines, "\n")) == Join(Kept(lines), "\n")
  {
    if lines != [] {
      var init, last := lines[..|lines| - 1], lines[|lines| - 1];
      assert init + [last] == lines;
      if init == [] {
        assert Join(lines, "\n") == last;
        assert init + [StripRight(last)] == [StripRight(last)];
      } else {
        hide StripRight, Join, Kept;
        JoinSnoc(init, last);
        StripRightConcat(Join(init, "\n"), "\n" + last);
        StripRightConcat("\n", last);
        assert StripRight("\n") == "" by { StripRightNewline(); }
        JoinKept(init);
        KeptSnoc(init, last);
        if StripRight(last) != "" { JoinSnoc(init, StripRight(last)); }
      }
    }
  }

  lemma StripRightNewline()
    ensures StripRight("\n") == ""
  {
    assert "\n"[..0] == "";
  }

  lemma KeptSnoc(init: seq<string>, last: string)
    ensures Kept(init + [last]) == if StripRight(last) == "" then Kept(init) else init + [StripRight(last)]
  {
    assert (init + [last])[..|init|] == init;
  }

  // ----- splitting -----

  function Terminated(lines: seq<string>): string {
    if lines == [] then "" else lines[0] + ("\n" + Terminated(lines[1..]))
  }

  lemma {:induction false} JoinTerminated(lines: seq<string>)
    requires lines != []
    ensures Join(lines, "\n") + "\n" == Terminated(lines)
  {
    if |lines| == 1 {
      assert Terminated(lines[1..]) == "" && "\n" + "" == "\n";
    } else {
      JoinTerminated(lines[1..]);
      ConcatAssociates(lines[0], "\n", Join(lines[1..], "\n"));
      ConcatAssociates(lines[0], "\n" + Join(lines[1..], "\n"), "\n");
      ConcatAssociates("\n", Join(lines[1..], "\n"), "\n");
    }
  }

  lemma {:induction false} FindBreakAt(line: string, rest: string)
    requires OneLine(line)
    ensures FindBreak(line + ("\n" + rest)) == |line|
  {
    var t := line + ("\n" + rest);
    assert t[|line|] == '\n' && IsLineBreak('\n');
    assert forall i :: 0 <= i < |line| ==> t[i] == line[i];
  }

  /** Splitting undoes joining. */
  lemma {:induction false} SplitTerminated(lines: seq<string>)
    requires AllOneLine(lines)
    ensures SplitLines(Terminated(lines)) == lines
  {
    if lines != [] {
      var line, rest := lines[0], Terminated(lines[1..]);
      SplitTerminated(lines[1..]);
      hide Terminated, FindBreak;
      assert Terminated(lines) == line + ("\n" + rest) by { TerminatedCons(lines); }
      var t := line + ("\n" + rest);
      FindBreakAt(line, rest);
      assert t[|line|] == '\n' && t[..|line|] == line && t[|line| + 1..] == rest;
    }
  }

  lemma TerminatedCons(lines: seq<string>)
    requires lines != []
    ensures Terminated(lines) == lines[0] + ("\n" + Terminated(lines[1..]))
  {
  }

  lemma {:induction false} SplitLinesOneLine(t: string)
    ensures AllOneLine(SplitLines(t))
    decreases |t|
  {
    if t != "" {
      var k := FindBreak(t);
      if k < |t| {
        hide IsLineBreak, FindBreak, BehindBreak;
        var rest := t[BehindBreak(t, k)..];
        SplitLinesOneLine(rest);
        assert OneLine(t[..k]) && SplitLines(t) == [t[..k]] + SplitLines(rest);
        hide SplitLines, OneLine;
      }
    }
  }

  lemma {:induction false} KeptOneLine(lines: seq<string>)
    requires AllOneLine(lines)
    ensures AllOneLine(Kept(lines))
  {
    if lines != [] {
      KeptOneLine(lines[..|lines| - 1]);
      StripRightTrims(lines[|lines| - 1]);
      hide StripRight;
    }
  }

  /** A written file splits back into its kept lines. */
  lemma SplitWritten(lines: seq<string>)
    requires AllOneLine(lines)
    ensures SplitLines(StripRight(Join(lines, "\n")) + "\n") == Kept(lines)
  {
    hide StripRight, Join, Kept;
    JoinKept(lines);
    KeptOneLine(lines);
    JoinTerminated(Kept(lines));
    SplitTerminated(Kept(lines));
  }
}
