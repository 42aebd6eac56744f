/** The dotenv file as a round trip: what the writer stores, the first-wins reader returns. */
module DotenvLaws {
  import opened Text
  import opened Dotenv

  // ----- the reader as a list of entries, the first one of a key winning -----

  function Entries(lines: seq<string>): seq<Pair> {
    if lines == [] then []
    else (match ReadLine(lines[0]) case Some(p) => [p] case None => []) + Entries(lines[1..])
  }

  function Lookup(entries: seq<Pair>, key: string): Option<string> {
    if entries == [] then None else if entries[0].key == key then Some(entries[0].value) else Lookup(entries[1..], key)
  }

  function OrElse(a: Option<string>, b: Option<string>): Option<string> { if a.Some? then a else b }

  function InMap(env: map<string, string>, key: string): Option<string> { if key in env then Some(env[key]) else None }

  lemma {:induction false} EntriesAppend(a: seq<string>, b: seq<string>)
    ensures Entries(a + b) == Entries(a) + Entries(b)
  {
    hide ReadLine;
    if a == [] {
      assert a + b == b;
    } else {
      EntriesAppend(a[1..], b);
      var here := match ReadLine(a[0]) case Some(p) => [p] case None => [];
      assert (a + b)[1..] == a[1..] + b && (a + b)[0] == a[0];
      assert Entries(a + b) == here + Entries(a[1..] + b) && Entries(a) == here + Entries(a[1..]);
      ConcatAssociates(here, Entries(a[1..]), Entries(b));
    }
  }

  lemma {:induction false} LookupAppend(a: seq<Pair>, b: seq<Pair>, key: string)
    ensures Lookup(a + b, key) == OrElse(Lookup(a, key), Lookup(b, key))
  {
    if a == [] {
      assert a + b == b;
    } else {
      LookupAppend(a[1..], b, key);
      assert (a + b)[1..] == a[1..] + b;
    }
  }

  /** `setdefault` line by line: the environment wins over the file, an earlier line over a later one. */
  lemma {:induction false} ReadIsFirstWins(env: map<string, string>, lines: seq<string>, key: string)
    ensures InMap(Read(env, lines), key) == OrElse(InMap(env, key), Lookup(Entries(lines), key))
  {
    hide ReadLine;
    if lines != [] {
      var init, last := lines[..|lines| - 1], [lines[|lines| - 1]];
      ReadIsFirstWins(env, init, key);
      assert init + last == lines;
      EntriesAppend(init, last);
      LookupAppend(Entries(init), Entries(last), key);
      assert Entries(last[1..]) == [];
      if ReadLine(last[0]).Some? { assert Entries(last) == [ReadLine(last[0]).value]; }
    }
  }

  // ----- the pairs a caller may write -----

  predicate ValidKey(key: string) {
    key != "" && Trimmed(key) && '=' !in key && key[0] != '#' && OneLine(key)
  }

  predicate Writable(values: seq<Pair>) {
    && (forall i :: 0 <= i < |values| ==> ValidKey(values[i].key) && Encode(values[i].value).Some?)
    && (forall i, j :: 0 <= i < j < |values| ==> values[i].key != values[j].key)
  }

  predicate OneLiners(values: seq<Pair>) { forall i :: 0 <= i < |values| ==> OneLine(values[i].value) }

  predicate AllOneLine(lines: seq<string>) { forall i :: 0 <= i < |lines| ==> OneLine(lines[i]) }

  lemma FindEqualsAfterKey(key: string, rest: string)
    requires '=' !in key
    ensures FindEquals(key + "=" + rest) == |key|
  {
    var s := key + "=" + rest;
    assert s[|key|] == '=';
    assert forall i :: 0 <= i < |key| ==> s[i] == key[i];
  }

  lemma AssignmentShape(p: Pair, q: string)
    requires Encode(p.value) == Some(q)
    ensures |q| >= 2 && Trimmed(q) && Unquote(q) == p.value && Assignment(p) == p.key + "=" + q
  {
    assert q[1..|q| - 1] == p.value;
  }

  lemma ConcatTrimmed(key: string, q: string)
    requires key != "" && q != "" && Trimmed(key) && Trimmed(q)
    ensures Trimmed(key + "=" + q) && StripRight(key + "=" + q) == key + "=" + q
  {
    var s := key + "=" + q;
    assert s[0] == key[0] && s[|s| - 1] == q[|q| - 1];
  }

  /** A written line is read back as the pair it was written for, quotes and blanks of the value included. */
  lemma AssignmentReadsBack(p: Pair)
    requires ValidKey(p.key) && Encode(p.value).Some?
    ensures ReadLine(Assignment(p)) == Some(p) && KeyOf(Assignment(p)) == p.key
    ensures StripRight(Assignment(p)) == Assignment(p)
  {
    var q := Encode(p.value).value;
    var s := p.key + "=" + q;
    hide Encode, Unquote, FindEquals, Strip, StripRight, Assignment, OneLine, IsSpace;
    AssignmentShape(p, q);
    ConcatTrimmed(p.key, q);
    StripFixes(s);
    StripFixes(q);
    StripFixes(p.key);
    FindEqualsAfterKey(p.key, q);
    assert s[0] == p.key[0] && s[|p.key|] == '=';
    assert s[..|p.key|] == p.key && s[|p.key| + 1..] == q;
  }

  // ----- one pass over the lines -----

  lemma {:induction false} LookupOfFind(values: seq<Pair>, key: string)
    ensures Lookup(values, key) == if Has(values, key) then Some(values[Find(values, key)].value) else None
  {
    if values != [] && values[0].key != key { LookupOfFind(values[1..], key); }
  }

  lemma WithoutWritable(values: seq<Pair>, i: nat)
    requires i < |values| && Writable(values)
    ensures Writable(Without(values, i))
  {
    hide ValidKey, Encode;
    var w := Without(values, i);
    assert forall k :: 0 <= k < |w| ==> w[k] == values[if k < i then k else k + 1];
  }

  lemma {:induction false} LookupWithout(values: seq<Pair>, i: nat, key: string)
    requires i < |values| && Writable(values)
    ensures Lookup(Without(values, i), key) == if key == values[i].key then None else Lookup(values, key)
  {
    hide ValidKey, Encode;
    var w := Without(values, i);
    if i == 0 {
      assert w == values[1..];
      LookupOfFind(w, key);
    } else {
      LookupWithout(values[1..], i - 1, key);
      assert w[1..] == Without(values[1..], i - 1) && w[0] == values[0];
    }
  }

  lemma LookupAfterLine(line: string, rest: seq<string>, key: string)
    ensures Lookup(Entries([line] + rest), key)
         == match ReadLine(line)
            case Some(p) => if p.key == key then Some(p.value) else Lookup(Entries(rest), key)
            case None => Lookup(Entries(rest), key)
  {
    hide ReadLine;
    assert ([line] + rest)[1..] == rest;
    match ReadLine(line)
    case Some(p) => assert ([p] + Entries(rest))[1..] == Entries(rest);
    case None => assert [] + Entries(rest) == Entries(rest);
  }

  lemma KeysRead(line: string)
    ensures ReadLine(line).Some? ==> ReadLine(line).value.key == KeyOf(line)
    ensures ReadLine(line).None? ==> KeyOf(line) == ""
  {
  }

  /**
   * The pass replaces the first line of each written key and keeps what every other key reads; what it leaves over are
   * the keys no line assigns.
   */
  lemma {:induction false} UpdateReads(lines: seq<string>, values: seq<Pair>, key: string)
    requires Writable(values)
    ensures Writable(Update(lines, values).1)
    ensures Lookup(Entries(Update(lines, values).0), key)
         == if Lookup(Entries(lines), key).Some? then OrElse(Lookup(values, key), Lookup(Entries(lines), key)) else None
    ensures Lookup(Update(lines, values).1, key)
         == if Lookup(Entries(lines), key).Some? then None else Lookup(values, key)
  {
    if lines != [] {
      var i := Find(values, KeyOf(lines[0]));
      KeysRead(lines[0]);
      hide KeyOf, ReadLine, Assignment, ValidKey, Encode, Entries, Lookup;
      assert [lines[0]] + lines[1..] == lines;
      LookupAfterLine(lines[0], lines[1..], key);
      LookupOfFind(values, key);
      LookupOfFind(values, KeyOf(lines[0]));
      if i < |values| {
        assert values[i].key != "" by { assert ValidKey(values[i].key); assert values[i].key != ""; }
        LookupWithout(values, i, key);
        WithoutWritable(values, i);
        UpdateReads(lines[1..], Without(values, i), key);
        AssignmentReadsBack(values[i]);
        LookupAfterLine(Assignment(values[i]), Update(lines[1..], Without(values, i)).0, key);
      } else {
        LookupAfterLine(lines[0], Update(lines[1..], values).0, key);
        UpdateReads(lines[1..], values, key);
      }
    }
  }
}
