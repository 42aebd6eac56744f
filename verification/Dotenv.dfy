/** The dotenv writer of the settings page and the reader of the runtime: two programs that must agree on one file. */
module Dotenv {
  import opened Text

  datatype Option<+T> = None | Some(value: T)
  datatype Pair = Pair(key: string, value: string)

  // ----- lines of a text -----

  function FindBreak(t: string): (k: nat)
    ensures k <= |t| && (forall i :: 0 <= i < k ==> !IsLineBreak(t[i])) && (k < |t| ==> IsLineBreak(t[k]))
  {
    if t == "" || IsLineBreak(t[0]) then 0 else 1 + FindBreak(t[1..])
  }

  /** `str.splitlines` */
  function SplitLines(t: string): seq<string>
    decreases |t|
  {
    if t == "" then [] else
    var k := FindBreak(t);
    if k == |t| then [t] else [t[..k]] + SplitLines(t[BehindBreak(t, k)..])
  }

  /** A carriage return and a line feed are one break. */
  function BehindBreak(t: string, k: nat): (r: nat)
    requires k < |t|
    ensures k < r <= |t|
  {
    if t[k] == '\r' && k + 1 < |t| && t[k + 1] == '\n' then k + 2 else k + 1
  }

  predicate OneLine(s: string) { forall i :: 0 <= i < |s| ==> !IsLineBreak(s[i]) }

  // ----- one line -----

  /** Where the first `=` is, or the length. */
  function FindEquals(s: string): (k: nat)
    ensures k <= |s| && (forall i :: 0 <= i < k ==> s[i] != '=') && (k < |s| ==> s[k] == '=')
  {
    if s == "" || s[0] == '=' then 0 else 1 + FindEquals(s[1..])
  }

  /** Whether a stripped line assigns something. */
  predicate Assigns(stripped: string) { stripped != "" && stripped[0] != '#' && '=' in stripped }

  /** The key a line assigns, `""` when it assigns none. */
  function KeyOf(line: string): string {
    var s := Strip(line);
    if Assigns(s) then Strip(s[..FindEquals(s)]) else ""
  }

  function Unquote(v: string): string {
    if |v| >= 2 && v[0] == v[|v| - 1] && (v[0] == '\'' || v[0] == '"') then v[1..|v| - 1] else v
  }

  /** What the reader takes from a line. */
  function ReadLine(line: string): Option<Pair> {
    var s := Strip(line);
    if !Assigns(s) then None else
    var k := FindEquals(s);
    if k == |s| then None else Some(Pair(Strip(s[..k]), Unquote(Strip(s[k + 1..]))))
  }

  // ----- the reader -----

  /** `os.environ.setdefault` */
  function SetDefault(env: map<string, string>, p: Pair): map<string, string> {
    if p.key in env then env else env[p.key := p.value]
  }

  function Read(env: map<string, string>, lines: seq<string>): map<string, string> {
    if lines == [] then env else
    var before := Read(env, lines[..|lines| - 1]);
    match ReadLine(lines[|lines| - 1])
    case None => before
    case Some(p) => SetDefault(before, p)
  }

  lemma HasEquals(s: string)
    requires Assigns(s)
    ensures FindEquals(s) < |s|
  {
  }

  method LoadEnv(text: string, environ: map<string, string>) returns (env: map<string, string>)
    ensures env == Read(environ, SplitLines(text))
  {
    hide Strip, FindEquals, SplitLines, Assigns;
    env := environ;
    var lines := SplitLines(text);
    for i := 0 to |lines|
      invariant env == Read(environ, lines[..i])
    {
      assert lines[..i + 1][..i] == lines[..i];
      var stripped := Strip(lines[i]);
      if !Assigns(stripped) {
        continue;
      }
      var k := FindEquals(stripped);
      HasEquals(stripped);
      var key, value := Strip(stripped[..k]), Strip(stripped[k + 1..]);
      if |value| >= 2 && value[0] == value[|value| - 1] && value[0] in {'\'', '"'} {
        value := value[1..|value| - 1];
      }
      if key !in env {
        env := env[key := value];
      }
    }
    assert lines[..|lines|] == lines;
  }

  // ----- the writer -----

  /** `_dotenv_value`; None where the program raises. */
  function Encode(value: string): Option<string> {
    if '\n' in value || '\r' in value then None
    else if '\'' !in value then Some("'" + value + "'")
    else if '"' !in value then Some("\"" + value + "\"")
    else None
  }

  /** The line written for a pair; the second case is never written. */
  function Assignment(p: Pair): string {
    p.key + "=" + match Encode(p.value) case Some(v) => v case None => ""
  }

  predicate Encodable(values: seq<Pair>) { forall i :: 0 <= i < |values| ==> Encode(values[i].value).Some? }

  /** The position of a key among the remaining values, or their number. */
  function Find(values: seq<Pair>, key: string): (r: nat)
    ensures r <= |values| && (r < |values| ==> values[r].key == key)
    ensures forall i :: 0 <= i < r ==> values[i].key != key
  {
    if values == [] || values[0].key == key then 0 else 1 + Find(values[1..], key)
  }

  predicate Has(values: seq<Pair>, key: string) { Find(values, key) < |values| }

  function Without(values: seq<Pair>, i: nat): seq<Pair>
    requires i < |values|
  {
    values[..i] + values[i + 1..]
  }

  /** The first pass: known keys are rewritten in place, once each; what was not found is left over. */
  function Update(lines: seq<string>, values: seq<Pair>): (seq<string>, seq<Pair>) {
    if lines == [] then ([], values) else
    var i := Find(values, KeyOf(lines[0]));
    if i < |values| then
      var rest := Update(lines[1..], Without(values, i));
      ([Assignment(values[i])] + rest.0, rest.1)
    else
      var rest := Update(lines[1..], values);
      ([lines[0]] + rest.0, rest.1)
  }

  function Assignments(values: seq<Pair>): (r: seq<string>)
    ensures |r| == |values| && forall i :: 0 <= i < |r| ==> r[i] == Assignment(values[i])
  {
    seq(|values|, i requires 0 <= i < |values| => Assignment(values[i]))
  }

  /** New keys go behind the old lines, set off by one blank line. */
  function Appended(updated: seq<string>, remaining: seq<Pair>): seq<string> {
    (if remaining != [] && updated != [] && Strip(updated[|updated| - 1]) != "" then updated + [""] else updated)
    + Assignments(remaining)
  }

  function Rewritten(lines: seq<string>, values: seq<Pair>): seq<string> {
    Appended(Update(lines, values).0, Update(lines, values).1)
  }

  function Written(lines: seq<string>, values: seq<Pair>): string {
    StripRight(Join(Rewritten(lines, values), "\n")) + "\n"
  }

  /** What a rewriting of the file leaves in it. */
  function Persisted(text: Option<string>, values: seq<Pair>): string {
    Written(match text case Some(t) => SplitLines(t) case None => [], values)
  }

  class EnvFile {
    /** The content, None when the file does not exist. */
    var text: Option<string>

    /** The pass over the existing lines; None when a value to be written raises. */
    static method UpdateLines(existing: seq<string>, values: seq<Pair>) returns (r: Option<(seq<string>, seq<Pair>)>)
      ensures r.Some? ==> r.value == Update(existing, values) && (Encodable(r.value.1) ==> Encodable(values))
      ensures r.None? ==> !Encodable(values)
    {
      hide Encode, KeyOf, Assignment;
      var remaining := values;
      var updated: seq<string> := [];
      assert existing[0..] == existing && [] + Update(existing, values).0 == Update(existing, values).0;
      for n := 0 to |existing|
        invariant Encodable(remaining) <==> Encodable(values)
        invariant Update(existing, values)
          == (updated + Update(existing[n..], remaining).0, Update(existing[n..], remaining).1)
      {
        var at := Find(remaining, KeyOf(existing[n]));
        assert existing[n..][1..] == existing[n + 1..];
        if at < |remaining| {
          var p := remaining[at];
          if Encode(p.value).None? {
            return None;
          }
          RestEncodable(remaining, at);
          ConcatAssociates(updated, [Assignment(p)], Update(existing[n + 1..], Without(remaining, at)).0);
          updated := updated + [Assignment(p)];
          remaining := Without(remaining, at);
        } else {
          ConcatAssociates(updated, [existing[n]], Update(existing[n + 1..], remaining).0);
          updated := updated + [existing[n]];
        }
      }
      assert existing[|existing|..] == [] && updated + [] == updated;
      return Some((updated, remaining));
    }

    /** Rewrites the file; reports false, and leaves the file alone, where the program raises. */
    method Persist(values: seq<Pair>) returns (ok: bool)
      modifies this
      ensures ok <==> Encodable(values)
      ensures text == if ok then Some(Persisted(old(text), values)) else old(text)
    {
      hide Encode, Update, SplitLines, StripRight, Join;
      var existing := match text case Some(t) => SplitLines(t) case None => [];
      var pass := UpdateLines(existing, values);
      if pass.None? {
        return false;
      }
      var (updated, remaining) := pass.value;
      if remaining != [] && updated != [] && Strip(updated[|updated| - 1]) != "" {
        updated := updated + [""];
      }
      var i := 0;
      ghost var start := updated;
      while i < |remaining|
        invariant i <= |remaining| && updated == start + Assignments(remaining[..i])
        invariant forall k :: 0 <= k < i ==> Encode(remaining[k].value).Some?
      {
        if Encode(remaining[i].value).None? {
          ok := false;
          RemainingFromValues(existing, values);
          assert remaining[i] in values;
          return;
        }
        updated := updated + [Assignment(remaining[i])];
        i := i + 1;
      }
      assert remaining[..i] == remaining;
      text := Some(StripRight(Join(updated, "\n")) + "\n");
      return true;
    }
  }

  lemma RestEncodable(values: seq<Pair>, i: nat)
    requires i < |values| && Encode(values[i].value).Some?
    ensures Encodable(Without(values, i)) <==> Encodable(values)
  {
    hide Encode;
    if Encodable(Without(values, i)) {
      forall k | 0 <= k < |values| ensures Encode(values[k].value).Some? {
        if k != i { assert values[k] == Without(values, i)[if k < i then k else k - 1]; }
      }
    }
  }

  lemma {:induction false} RemainingFromValues(lines: seq<string>, values: seq<Pair>)
    ensures forall p :: p in Update(lines, values).1 ==> p in values
  {
    if lines != [] {
      var i := Find(values, KeyOf(lines[0]));
      hide KeyOf, Assignment;
      if i < |values| { RemainingFromValues(lines[1..], Without(values, i)); }
      else { RemainingFromValues(lines[1..], values); }
    }
  }
}
