/** Writing the same values again leaves the file as it is exactly when none of them has a line break. */
module DotenvRewrite {
  import opened Text
  import opened Dotenv
  import opened DotenvLaws
  import opened DotenvText
  import opened DotenvRoundTrip

  // ----- counting line feeds and line breaks -----

  function Feeds(t: string): nat { if t == "" then 0 else Feeds(t[1..]) + if t[0] == '\n' then 1 else 0 }

  function Breaks(t: string): nat { if t == "" then 0 else Breaks(t[1..]) + if IsLineBreak(t[0]) then 1 else 0 }

  predicate NoFeed(s: string) { '\n' !in s && '\r' !in s }

  lemma {:induction false} FeedsConcat(a: string, b: string)
    ensures Feeds(a + b) == Feeds(a) + Feeds(b) && Breaks(a + b) == Breaks(a) + Breaks(b)
  {
    if a == "" {
      assert a + b == b;
    } else {
      assert (a + b)[1..] == a[1..] + b;
      FeedsConcat(a[1..], b);
      hide IsLineBreak;
    }
  }

  lemma {:induction false} NoFeeds(s: string)
    requires NoFeed(s)
    ensures Feeds(s) == 0 && (Breaks(s) == 0 <==> OneLine(s))
  {
    if s != "" { NoFeeds(s[1..]); }
  }

  lemma OneLineHasNoFeed(s: string)
    requires OneLine(s)
    ensures NoFeed(s)
  {
  }

  ghost predicate AllNoFeed(lines: seq<string>) { forall i :: 0 <= i < |lines| ==> NoFeed(lines[i]) }

  /** Of joined lines: one line feed for each, and more breaks exactly when a line has one inside. */
  lemma {:induction false} TerminatedCounts(lines: seq<string>)
    requires AllNoFeed(lines)
    ensures Feeds(Terminated(lines)) == |lines| && '\r' !in Terminated(lines)
    ensures Breaks(Terminated(lines)) >= |lines| && (Breaks(Terminated(lines)) == |lines| <==> AllOneLine(lines))
  {
    if lines != [] {
      var rest := Terminated(lines[1..]);
      hide OneLine, NoFeed;
      TerminatedCounts(lines[1..]);
      NoFeeds(lines[0]);
      FeedsConcat(lines[0], "\n" + rest);
      FeedsConcat("\n", rest);
      OneFeed();
      assert AllOneLine(lines) <==> OneLine(lines[0]) && AllOneLine(lines[1..]);
      assert '\r' !in lines[0] by { assert NoFeed(lines[0]); NoReturn(lines[0]); }
    }
  }

  lemma OneFeed()
    ensures Feeds("\n") == 1 && Breaks("\n") == 1 && '\r' !in "\n"
  {
    assert "\n"[1..] == "";
  }

  lemma NoReturn(s: string)
    requires NoFeed(s)
    ensures '\r' !in s
  {
  }

  /** Every break ends a line of its own. */
  lemma {:induction false} SplitCounts(t: string)
    requires '\r' !in t
    ensures |SplitLines(t)| >= Breaks(t)
    decreases |t|
  {
    if t != "" {
      var k := FindBreak(t);
      assert t[..k] + t[k..] == t;
      FeedsConcat(t[..k], t[k..]);
      NoBreaks(t[..k]);
      if k < |t| {
        assert t[k] != '\r';
        assert BehindBreak(t, k) == k + 1 && t[k..][1..] == t[k + 1..];
        SplitCounts(t[k + 1..]);
      } else {
        assert t[k..] == "";
      }
    }
  }

  lemma {:induction false} NoBreaks(s: string)
    requires OneLine(s)
    ensures Breaks(s) == 0
  {
    if s != "" { NoBreaks(s[1..]); }
  }

  // ----- nothing at the end is blank -----

  lemma {:induction false} KeptLong(lines: seq<string>, k: nat)
    requires k < |lines| && StripRight(lines[k]) != ""
    ensures |Kept(lines)| > k
  {
    hide StripRight;
    var n := |lines| - 1;
    if k < n { KeptLong(lines[..n], k); }
  }

  lemma VisibleEnd(s: string)
    requires s != "" && !IsSpace(s[|s| - 1])
    ensures StripRight(s) == s
  {
  }

  /** A text that ends in a visible character and a line feed has a last line that is not blank. */
  lemma {:induction false} LastLineFilled(t: string)
    requires |t| >= 2 && t[|t| - 1] == '\n' && !IsSpace(t[|t| - 2])
    ensures SplitLines(t) != [] && StripRight(SplitLines(t)[|SplitLines(t)| - 1]) != ""
    decreases |t|
  {
    var k := FindBreak(t);
    assert IsLineBreak('\n') && !IsLineBreak(t[|t| - 2]);
    assert k < |t|;
    hide IsLineBreak, IsSpace;
    if k == |t| - 1 {
      VisibleEnd(t[..k]);
      hide StripRight;
      assert t[BehindBreak(t, k)..] == "";
      assert SplitLines(t) == [t[..k]];
    } else {
      var rest := t[BehindBreak(t, k)..];
      hide StripRight;
      assert rest[|rest| - 1] == '\n' && rest[|rest| - 2] == t[|t| - 2];
      LastLineFilled(rest);
    }
  }

  // ----- the lines of a write -----

  lemma AssignmentEnds(p: Pair)
    requires ValidKey(p.key) && Encode(p.value).Some?
    ensures StripRight(Assignment(p)) == Assignment(p) != "" && NoFeed(Assignment(p))
    ensures OneLine(Assignment(p)) ==> OneLine(p.value)
  {
    var q := Encode(p.value).value;
    var s := Assignment(p);
    OneLineHasNoFeed(p.key);
    assert s == p.key + "=" + q;
    assert s[|s| - 1] == q[|q| - 1] && (q[|q| - 1] == '\'' || q[|q| - 1] == '"');
    assert q[1..|q| - 1] == p.value;
    if OneLine(s) {
      forall i | 0 <= i < |p.value| ensures !IsLineBreak(p.value[i]) {
        assert p.value[i] == q[i + 1] == s[|p.key| + 1 + i + 1];
      }
    }
  }

  /** Every line is an old one or a written one. */
  lemma {:induction false} UpdateAt(lines: seq<string>, values: seq<Pair>, k: nat) returns (p: Pair)
    requires k < |lines|
    ensures var u := Update(lines, values).0;
      k < |u| == |lines| && (u[k] == lines[k] || (p in values && u[k] == Assignment(p)))
  {
    LengthOfUpdate(lines, values);
    hide KeyOf, Assignment;
    var i := Find(values, KeyOf(lines[0]));
    if k == 0 {
      p := if i < |values| then values[i] else Pair("", "");
    } else {
      var rest := if i < |values| then Without(values, i) else values;
      p := UpdateAt(lines[1..], rest, k - 1);
      assert Update(lines, values).0[k] == Update(lines[1..], rest).0[k - 1];
    }
  }

  /** And every value is written or left over. */
  lemma {:induction false} UpdateHolds(lines: seq<string>, values: seq<Pair>, p: Pair)
    requires p in values
    ensures Assignment(p) in Update(lines, values).0 || p in Update(lines, values).1
  {
    if lines != [] {
      hide KeyOf, Assignment;
      var i := Find(values, KeyOf(lines[0]));
      if i == |values| {
        UpdateHolds(lines[1..], values, p);
      } else if values[i] != p {
        var k :| 0 <= k < |values| && values[k] == p;
        assert Without(values, i)[if k < i then k else k - 1] == p;
        UpdateHolds(lines[1..], Without(values, i), p);
      }
    }
  }

  lemma RewrittenLines(lines: seq<string>, values: seq<Pair>)
    requires AllOneLine(lines) && Writable(values)
    ensures AllNoFeed(Rewritten(lines, values)) && forall p :: p in values ==> Assignment(p) in Rewritten(lines, values)
  {
    RemainingFromValues(lines, values);
    LengthOfUpdate(lines, values);
    var (u, r) := Update(lines, values);
    var out := Rewritten(lines, values);
    hide Update, Assignment, Strip, Assignments, NoFeed, OneLine, ValidKey, Encode;
    forall p | p in values ensures NoFeed(Assignment(p)) { AssignmentEnds(p); }
    forall i | 0 <= i < |lines| ensures NoFeed(lines[i]) { OneLineHasNoFeed(lines[i]); }
    assert NoFeed("") by { NothingFeeds(); }
    forall i | 0 <= i < |u| ensures NoFeed(u[i]) { var p := UpdateAt(lines, values, i); }
    var as_ := Assignments(r);
    forall i | 0 <= i < |as_| ensures NoFeed(as_[i]) { assert r[i] in values; }
    forall p | p in values ensures Assignment(p) in out {
      UpdateHolds(lines, values, p);
      if p in r {
        var k :| 0 <= k < |r| && r[k] == p;
        assert as_[k] == Assignment(p);
      }
    }
  }

  lemma NothingFeeds()
    ensures NoFeed("")
  {
  }

  lemma {:induction false} KeptHolds(lines: seq<string>, k: nat)
    requires k < |lines| && StripRight(lines[k]) == lines[k] != ""
    ensures lines[k] in Kept(lines)
  {
    hide StripRight;
    var n := |lines| - 1;
    if k < n {
      KeptHolds(lines[..n], k);
      if StripRight(lines[n]) != "" { assert Kept(lines)[k] == lines[k]; }
    }
  }

  lemma {:induction false} KeptNoFeed(lines: seq<string>)
    requires AllNoFeed(lines)
    ensures AllNoFeed(Kept(lines))
  {
    NothingFeeds();
    if lines != [] {
      KeptNoFeed(lines[..|lines| - 1]);
      StripRightTrims(lines[|lines| - 1]);
      hide StripRight;
    }
  }

  /** The text of a write: as many line feeds as lines, and more line breaks exactly when a line has one inside. */
  lemma WrittenCounts(lines: seq<string>, values: seq<Pair>)
    requires AllOneLine(lines) && Writable(values)
    ensures var t, kept := Written(lines, values), Kept(Rewritten(lines, values));
      && Feeds(t) == |kept| && '\r' !in t && Breaks(t) >= |kept| && (!OneLiners(values) ==> Breaks(t) > |kept|)
  {
    var r := Rewritten(lines, values);
    RewrittenLines(lines, values);
    hide Rewritten, StripRight, Join, Kept, OneLine, Assignment, ValidKey, Encode, NoFeed;
    KeptNoFeed(r);
    JoinKept(r);
    JoinTerminated(Kept(r));
    TerminatedCounts(Kept(r));
    if !OneLiners(values) {
      var i :| 0 <= i < |values| && !OneLine(values[i].value);
      AssignmentEnds(values[i]);
      var k :| 0 <= k < |r| && r[k] == Assignment(values[i]);
      KeptHolds(r, k);
      var m :| 0 <= m < |Kept(r)| && Kept(r)[m] == r[k];
    }
  }

  /** A second write keeps all the lines there are, the last of which is not blank. */
  lemma NothingDropped(lines: seq<string>, values: seq<Pair>)
    requires AllOneLine(lines) && Writable(values) && lines != [] && StripRight(lines[|lines| - 1]) != ""
    ensures |Kept(Rewritten(lines, values))| >= |lines|
  {
    var u, n := Update(lines, values).0, |lines| - 1;
    var p := UpdateAt(lines, values, n);
    var r := Rewritten(lines, values);
    hide Update, Assignment, Assignments, StripRight, Strip, ValidKey, Encode;
    if u[n] != lines[n] { AssignmentEnds(p); }
    assert r[n] == u[n];
    KeptLong(r, n);
  }

  lemma StrippedLineFilled(t: string, joined: string)
    requires t == StripRight(joined) + "\n" && Breaks(t) > 1
    ensures SplitLines(t) != [] && StripRight(SplitLines(t)[|SplitLines(t)| - 1]) != ""
  {
    StripRightTrims(joined);
    var s := StripRight(joined);
    hide StripRight, SplitLines, IsSpace, Breaks;
    OneFeed();
    assert s == "" ==> t == "\n";
    assert t[|t| - 2] == s[|s| - 1];
    LastLineFilled(t);
  }

  lemma WrittenEnds(lines: seq<string>, values: seq<Pair>)
    requires Breaks(Written(lines, values)) > 1
    ensures var t := Written(lines, values); SplitLines(t) != [] && StripRight(SplitLines(t)[|SplitLines(t)| - 1]) != ""
  {
    hide StripRight, SplitLines, Breaks, Rewritten, Join;
    StrippedLineFilled(Written(lines, values), Join(Rewritten(lines, values), "\n"));
  }

  lemma WriteChanges(lines: seq<string>, values: seq<Pair>)
    requires AllOneLine(lines) && Writable(values) && !OneLiners(values)
    ensures Written(SplitLines(Written(lines, values)), values) != Written(lines, values)
  {
    hide *;
    var t := Written(lines, values);
    WrittenCounts(lines, values);
    assert Breaks(t) > 1;
    SplitLinesOneLine(t);
    SplitCounts(t);
    WrittenEnds(lines, values);
    NothingDropped(SplitLines(t), values);
    WrittenCounts(SplitLines(t), values);
  }

  lemma ChangesAgain(text: Option<string>, values: seq<Pair>)
    requires Writable(values) && !OneLiners(values)
    ensures Persisted(Some(Persisted(text, values)), values) != Persisted(text, values)
  {
    hide SplitLines, Written, Writable, OneLiners, AllOneLine;
    if text.Some? { SplitLinesOneLine(text.value); } else { NoLines(); }
    WriteChanges(Lines(text), values);
  }

  lemma NoLines()
    ensures AllOneLine([])
  {
  }

  /**
   * Whatever the file held: writing the same values a second time leaves the file as the first write left it if and
   * only if none of them has a line break. Otherwise the rest of such a value stands on a line of its own and stays
   * behind.
   */
  lemma PersistIsIdempotentIff(text: Option<string>, values: seq<Pair>)
    requires Writable(values)
    ensures Persisted(Some(Persisted(text, values)), values) == Persisted(text, values) <==> OneLiners(values)
  {
    hide Persisted, Writable, OneLiners;
    if OneLiners(values) { PersistIsIdempotent(text, values); } else { ChangesAgain(text, values); }
  }
}
