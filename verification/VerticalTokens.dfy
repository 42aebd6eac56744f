/** Token classes and the adjacent de-duplication that both vertical-table parsers start from. */
module VerticalTokens {
  import opened Text

  /** `\d+(,\d{3})*(\.\d+)?` after the leading digits have been consumed. */
  predicate IsAmountTail(s: string) {
    || s == ""
    || (s[0] == '.' && IsNumber(s[1..]))
    || (s[0] == ',' && |s| >= 4 && IsNumber(s[1..4]) && IsAmountTail(s[4..]))
  }

  function DigitPrefix(s: string): (k: nat)
    ensures k <= |s| && forall i :: 0 <= i < k ==> IsDigit(s[i])
    ensures k < |s| ==> !IsDigit(s[k])
  {
    if s != "" && IsDigit(s[0]) then 1 + DigitPrefix(s[1..]) else 0
  }

  predicate IsAmount(token: string) {
    var t := Strip(token);
    var k := DigitPrefix(t);
    k > 0 && IsAmountTail(t[k..])
  }

  /** `[A-Za-z\uac00-\ud7a3]+`, the unit column. */
  predicate IsUnit(token: string) {
    var t := Strip(token);
    t != "" && forall i :: 0 <= i < |t| ==> IsLetter(t[i])
  }

  /** `str.isalpha` on the letters this model knows. */
  predicate IsAlpha(token: string) {
    token != "" && forall i :: 0 <= i < |token| ==> IsLetter(token[i])
  }

  lemma AlphaIsNotAmount(s: string)
    requires IsAlpha(s)
    ensures !IsAmount(s)
  {
    StripFixes(s);
    assert IsLetter(s[0]);
  }

  lemma NumberIsAmount(s: string)
    requires IsNumber(s)
    ensures IsAmount(s)
  {
    StripFixes(s);
  }

  lemma UnitIsNotAmount(s: string)
    requires IsUnit(s)
    ensures !IsAmount(s)
  {
    assert IsLetter(Strip(s)[0]);
  }

  /** The list without any element equal to its predecessor. */
  function Dedupe(values: seq<string>): (r: seq<string>)
  {
    if |values| <= 1 then values
    else if values[0] == values[1] then Dedupe(values[1..])
    else [values[0]] + Dedupe(values[1..])
  }

  lemma DedupeCons(v: string, values: seq<string>)
    ensures Dedupe([v] + values) == if values != [] && values[0] == v then Dedupe(values) else [v] + Dedupe(values)
  {
    assert ([v] + values)[1..] == values;
  }

  predicate NoRepeats(values: seq<string>) {
    forall i :: 0 <= i < |values| - 1 ==> values[i] != values[i + 1]
  }

  /** De-duplication loses nothing else: it fixes exactly the lists without adjacent repeats. */
  lemma {:induction false} DedupeFixes(values: seq<string>)
    ensures NoRepeats(Dedupe(values))
    ensures values != [] ==> Dedupe(values) != [] && Dedupe(values)[0] == values[0]
    ensures Dedupe(values) == values <==> NoRepeats(values)
  {
    if |values| > 1 {
      DedupeFixes(values[1..]);
      DedupeShrinks(values[1..]);
      if values[0] != values[1] {
        assert Dedupe(values)[1..] == Dedupe(values[1..]);
        forall i | 0 <= i < |Dedupe(values)| - 1
          ensures Dedupe(values)[i] != Dedupe(values)[i + 1]
        {
          if i > 0 {
            assert Dedupe(values)[i] == Dedupe(values[1..])[i - 1];
          }
        }
        if NoRepeats(values) {
          assert forall i :: 0 <= i < |values[1..]| - 1 ==> values[1..][i] == values[i + 1];
          assert NoRepeats(values[1..]);
        }
        if NoRepeats(values[1..]) {
          forall i | 0 <= i < |values| - 1 ensures values[i] != values[i + 1] {
            if i > 0 { assert values[1..][i - 1] != values[1..][i]; }
          }
        }
      }
    }
  }

  lemma {:induction false} DedupeShrinks(values: seq<string>)
    ensures |Dedupe(values)| <= |values|
  {
    if |values| > 1 { DedupeShrinks(values[1..]); }
  }

  lemma {:induction false} DedupeSnoc(values: seq<string>, v: string)
    ensures Dedupe(values + [v])
      == (if values != [] && values[|values| - 1] == v then Dedupe(values) else Dedupe(values) + [v])
  {
    if |values| == 0 {
    } else if |values| == 1 {
      assert (values + [v])[1..] == [v];
    } else {
      DedupeSnoc(values[1..], v);
      assert (values + [v])[1..] == values[1..] + [v];
    }
  }

  lemma {:induction false} DedupeLast(values: seq<string>)
    requires values != []
    ensures Dedupe(values) != [] && Dedupe(values)[|Dedupe(values)| - 1] == values[|values| - 1]
  {
    if |values| > 1 { DedupeLast(values[1..]); }
  }

  method DedupeAdjacent(values: seq<string>) returns (deduped: seq<string>)
    ensures deduped == Dedupe(values)
  {
    deduped := [];
    for i := 0 to |values|
      invariant deduped == Dedupe(values[..i])
    {
      var value := values[i];
      DedupeSnoc(values[..i], value);
      assert values[..i + 1] == values[..i] + [value];
      if i > 0 { DedupeLast(values[..i]); }
      if deduped != [] && value == deduped[|deduped| - 1] {
        continue;
      }
      deduped := deduped + [value];
    }
    assert values[..|values|] == values;
  }

  // ----- the expected number of rows -----

  function Max(numbers: seq<nat>): nat {
    if numbers == [] then 0 else var m := Max(numbers[1..]); if numbers[0] > m then numbers[0] else m
  }

  /** The line-items-missing warning of either form. */
  predicate LineItemsMissing(expected: nat, actual: nat) { expected > 0 && actual < expected }
}
