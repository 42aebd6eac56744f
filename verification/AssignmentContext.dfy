/** Evidence per assignee, built from the selected hits, and its agreement with what the routing policy computes. */
module AssignmentContext {
  import opened Bags
  import opened MailSchemas
  import opened Retrieval
  import opened RetrievalLaws
  import Policy = RoutingPolicy

  /** One normalized hit; `assignee` is None when the hit has none or its text is not an identifier. */
  datatype Row = Row(retriever: Retriever, assignee: Option<string>, sourceType: string, sourceId: Option<string>,
      title: string, score: real)

  /** `str(UUID(text))`, None when the text is no identifier. */
  type Canon = string -> Option<string>

  function RowOf(canon: Canon, h: Hit): Row {
    Row(h.retriever, if h.assignee == "" then None
      else canon(h.assignee), h.sourceType, h.sourceId, h.title, RankScore(h))
  }

  /** One row for every hit, in order. */
  function RowPerHit(canon: Canon, hits: seq<Hit>): (r: seq<Row>)
    ensures |r| == |hits| && forall i :: 0 <= i < |hits| ==> r[i] == RowOf(canon, hits[i])
  {
    if hits == [] then [] else RowPerHit(canon, hits[..|hits| - 1]) + [RowOf(canon, hits[|hits| - 1])]
  }

  function OrEmpty(o: Option<string>): string { if o.Some? then o.value else "" }

  function RowKey(r: Row): (Retriever, string, string, string, string) {
    (r.retriever, OrEmpty(r.assignee), r.sourceType, OrEmpty(r.sourceId), r.title)
  }

  predicate SeenKey(rows: seq<Row>, r: Row) { exists i :: 0 <= i < |rows| && RowKey(rows[i]) == RowKey(r) }

  /** Evidence rows in the order of the hits, the first of each key only. */
  function EvidenceRows(canon: Canon, hits: seq<Hit>): seq<Row> {
    if hits == [] then [] else
    var before, r := EvidenceRows(canon, hits[..|hits| - 1]), RowOf(canon, hits[|hits| - 1]);
    if SeenKey(before, r) then before else before + [r]
  }

  /** The rows of one user, in order. */
  function RowsOf(rows: seq<Row>, user: string): seq<Row> {
    if rows == [] then []
    else RowsOf(rows[..|rows| - 1], user) + if rows[|rows| - 1].assignee == Some(user) then [rows[|rows| - 1]] else []
  }

  function Strongest(rows: seq<Row>): real
    requires rows != []
  {
    if |rows| == 1 then rows[0].score
    else Policy.MaxReal(Strongest(rows[..|rows| - 1]), rows[|rows| - 1].score)
  }

  datatype Candidate = Candidate(rows: seq<Row>, strongest: real)

  /** Groups the rows that have an assignee; users appear with all their rows and their strongest score. */
  method CandidateContexts(rows: seq<Row>) returns (contexts: map<string, Candidate>)
    ensures forall user :: user in contexts <==> RowsOf(rows, user) != []
    ensures forall user :: user in contexts
              ==> contexts[user] == Candidate(RowsOf(rows, user), Strongest(RowsOf(rows, user)))
  {
    var byUser: map<string, seq<Row>> := map[];
    for i := 0 to |rows|
      invariant forall user :: user in byUser <==> RowsOf(rows[..i], user) != []
      invariant forall user :: user in byUser ==> byUser[user] == RowsOf(rows[..i], user)
    {
      var item := rows[i];
      assert rows[..i + 1][..i] == rows[..i];
      if item.assignee.None? {
        continue;
      }
      var user := item.assignee.value;
      byUser := byUser[user := (if user in byUser then byUser[user] else []) + [item]];
    }
    assert rows[..|rows|] == rows;
    contexts := map user | user in byUser :: Candidate(byUser[user], Strongest(byUser[user]));
  }

  /** `keys` are the keys of `rows`. */
  ghost predicate KeysOf(keys: set<(Retriever, string, string, string, string)>, rows: seq<Row>) {
    forall key :: key in keys <==> exists k :: 0 <= k < |rows| && RowKey(rows[k]) == key
  }

  lemma KeysSnoc(keys: set<(Retriever, string, string, string, string)>, rows: seq<Row>, r: Row)
    requires KeysOf(keys, rows)
    ensures KeysOf(keys + {RowKey(r)}, rows + [r])
  {
    hide RowKey;
    forall key ensures key in keys + {RowKey(r)}
      <==> exists k :: 0 <= k < |rows + [r]| && RowKey((rows + [r])[k]) == key {
      assert (rows + [r])[|rows|] == r;
      if key in keys {
        var k :| 0 <= k < |rows| && RowKey(rows[k]) == key;
        assert (rows + [r])[k] == rows[k];
      }
    }
  }

  method Build(canon: Canon, hits: seq<Hit>) returns (rows: seq<Row>, contexts: map<string, Candidate>)
    ensures rows == EvidenceRows(canon, hits)
    ensures forall user :: user in contexts <==> RowsOf(rows, user) != []
    ensures forall user :: user in contexts
              ==> contexts[user] == Candidate(RowsOf(rows, user), Strongest(RowsOf(rows, user)))
  {
    hide RowKey, RowOf;
    rows := [];
    var seen: set<(Retriever, string, string, string, string)> := {};
    for i := 0 to |hits|
      invariant rows == EvidenceRows(canon, hits[..i]) && KeysOf(seen, rows)
    {
      assert hits[..i + 1][..i] == hits[..i];
      var row := RowOf(canon, hits[i]);
      assert RowKey(row) in seen <==> SeenKey(rows, row);
      if RowKey(row) in seen {
        continue;
      }
      KeysSnoc(seen, rows, row);
      seen := seen + {RowKey(row)};
      rows := rows + [row];
    }
    assert hits[..|hits|] == hits;
    contexts := CandidateContexts(rows);
  }

  // ----- one row per hit -----

  ghost predicate AllValid(hits: seq<Hit>) { forall i :: 0 <= i < |hits| ==> hits[i].Valid() }

  /** Hits that differ in the selection's key differ in the evidence key. */
  lemma KeysAgree(canon: Canon, a: Hit, b: Hit)
    requires a.Valid() && b.Valid() && RowKey(RowOf(canon, a)) == RowKey(RowOf(canon, b))
    ensures KeyOf(a) == KeyOf(b)
  {
  }

  /** Selected hits have distinct keys, so every one of them yields exactly one row, in order. */
  lemma {:induction false} OneRowPerHit(canon: Canon, hits: seq<Hit>)
    requires DistinctKeys(hits) && AllValid(hits)
    ensures EvidenceRows(canon, hits) == RowPerHit(canon, hits)
  {
    if hits != [] {
      var n := |hits| - 1;
      OneRowPerHit(canon, hits[..n]);
      FreshKey(canon, hits);
    }
  }

  lemma FreshKey(canon: Canon, hits: seq<Hit>)
    requires hits != [] && DistinctKeys(hits) && AllValid(hits)
    ensures !SeenKey(RowPerHit(canon, hits[..|hits| - 1]), RowOf(canon, hits[|hits| - 1]))
  {
    var n := |hits| - 1;
    var before := RowPerHit(canon, hits[..n]);
    hide RowOf, RowKey, KeyOf;
    if SeenKey(before, RowOf(canon, hits[n])) {
      var i :| 0 <= i < |before| && RowKey(before[i]) == RowKey(RowOf(canon, hits[n]));
      assert hits[..n][i] == hits[i];
      KeysAgree(canon, hits[i], hits[n]);
    }
  }

  lemma SelectionYieldsOneRowEach(canon: Canon, hits: seq<Hit>, limit: nat)
    requires AllValid(hits)
    ensures EvidenceRows(canon, Select(hits, limit)) == RowPerHit(canon, Select(hits, limit))
  {
    SelectionIsTopK(hits, limit);
    var s := Select(hits, limit);
    hide Select;
    forall i | 0 <= i < |s| ensures s[i].Valid() {
      assert BestOfKey(hits, s[i]);
    }
    OneRowPerHit(canon, s);
  }

  // ----- the users partition the evidence -----

  lemma {:induction false} RowsOfUser(rows: seq<Row>, user: string)
    ensures forall r :: r in RowsOf(rows, user) <==> r in rows && r.assignee == Some(user)
  {
    if rows != [] {
      RowsOfUser(rows[..|rows| - 1], user);
      assert rows == rows[..|rows| - 1] + [rows[|rows| - 1]];
    }
  }

  /** Every row with an assignee belongs to that user's context and to no other; rows without one belong to none. */
  lemma {:induction false} EvidenceIsPartitioned(rows: seq<Row>, r: Row, user: string)
    ensures r in RowsOf(rows, user) <==> r in rows && r.assignee == Some(user)
    ensures r in rows && r.assignee.Some? ==> r in RowsOf(rows, r.assignee.value)
    ensures forall other :: r in RowsOf(rows, user) && r in RowsOf(rows, other) ==> other == user
  {
    RowsOfUser(rows, user);
    if r.assignee.Some? { RowsOfUser(rows, r.assignee.value); }
    forall other | r in RowsOf(rows, user) && r in RowsOf(rows, other) ensures other == user {
      RowsOfUser(rows, other);
    }
  }

  // ----- when the two aggregations agree -----

  /** The policy's best evidence of either kind for a user. */
  function PolicyBest(hits: seq<Hit>, user: string): real {
    Policy.MaxReal(Policy.Evidence(hits, user, false), Policy.Evidence(hits, user, true))
  }

  lemma NoEvidence(user: string)
    ensures PolicyBest([], user) == 0.0
  {
  }

  lemma PolicyBestSnoc(hits: seq<Hit>, user: string)
    requires hits != []
    ensures var n := |hits| - 1;
      PolicyBest(hits, user) == if hits[n].assignee == user
        then Policy.MaxReal(PolicyBest(hits[..n], user), hits[n].score) else PolicyBest(hits[..n], user)
  {
  }

  /** The context counts the hit for the user. */
  predicate CountsFor(canon: Canon, h: Hit, user: string) { h.assignee != "" && canon(h.assignee) == Some(user) }

  /** What the context and the policy say of a user's strongest evidence is the same. */
  ghost predicate Agree(canon: Canon, hits: seq<Hit>, user: string) {
    var mine := RowsOf(EvidenceRows(canon, hits), user);
    if mine == [] then PolicyBest(hits, user) == 0.0 else Strongest(mine) == PolicyBest(hits, user)
  }

  lemma {:induction false} StrongestIsMax(rows: seq<Row>)
    requires rows != []
    ensures forall r :: r in rows ==> r.score <= Strongest(rows)
    ensures exists r :: r in rows && r.score == Strongest(rows)
  {
    var n := |rows| - 1;
    assert rows == rows[..n] + [rows[n]];
    if n > 0 {
      StrongestIsMax(rows[..n]);
      var r :| r in rows[..n] && r.score == Strongest(rows[..n]);
      assert r in rows && rows[n] in rows;
    } else {
      assert rows[0] in rows;
    }
  }

  /** The policy counts a hit for the user whose text it names. */
  lemma {:induction false} PolicyBestIsMax(hits: seq<Hit>, user: string)
    requires AllValid(hits) && user != ""
    ensures PolicyBest(hits, user) >= 0.0
    ensures forall i :: 0 <= i < |hits| && hits[i].assignee == user ==> hits[i].score <= PolicyBest(hits, user)
    ensures PolicyBest(hits, user) == 0.0 || exists i :: 0 <= i < |hits| && hits[i].assignee == user
                                               && hits[i].score == PolicyBest(hits, user)
  {
    if hits == [] {
      NoEvidence(user);
    } else {
      var n := |hits| - 1;
      PolicyBestIsMax(hits[..n], user);
      PolicyBestSnoc(hits, user);
      hide PolicyBest;
    }
  }

  /** The user's rows are those of the hits counted for the user. */
  lemma MineFromHits(canon: Canon, hits: seq<Hit>, user: string)
    ensures var mine := RowsOf(RowPerHit(canon, hits), user);
      && (forall i :: 0 <= i < |hits| && CountsFor(canon, hits[i], user) ==> RowOf(canon, hits[i]) in mine)
      && (forall r :: r in mine ==> exists i :: 0 <= i < |hits| && CountsFor(canon, hits[i], user)
                                      && RowOf(canon, hits[i]) == r)
  {
    var rows := RowPerHit(canon, hits);
    RowsOfUser(rows, user);
    hide RowsOf;
    forall i | 0 <= i < |hits| && CountsFor(canon, hits[i], user) ensures RowOf(canon, hits[i]) in RowsOf(rows, user) {
      assert rows[i] == RowOf(canon, hits[i]);
    }
    forall r | r in RowsOf(rows, user)
      ensures exists i :: 0 <= i < |hits| && CountsFor(canon, hits[i], user) && RowOf(canon, hits[i]) == r
    {
      var i :| 0 <= i < |rows| && rows[i] == r;
      assert CountsFor(canon, hits[i], user) && RowOf(canon, hits[i]) == r;
    }
  }

  /**
   * Some hit counted for the user ranks at least `v`: by its rerank score where it has one, which the policy never
   * reads.
   */
  predicate CountedReaches(canon: Canon, hits: seq<Hit>, user: string, v: real) {
    exists i :: 0 <= i < |hits| && CountsFor(canon, hits[i], user) && RankScore(hits[i]) >= v
  }

  /** Some hit that names the user in exactly this spelling scores at least `v`. */
  predicate NamedReaches(hits: seq<Hit>, user: string, v: real) {
    exists i :: 0 <= i < |hits| && hits[i].assignee == user && hits[i].score >= v
  }

  /**
   * The exact condition: every positive rank counted for the user, in whatever spelling, is reached by the score of a
   * hit in the user's own spelling, and every such score by the rank of a counted hit.
   */
  predicate Matched(canon: Canon, hits: seq<Hit>, user: string) {
    && (forall i :: 0 <= i < |hits| && CountsFor(canon, hits[i], user) && RankScore(hits[i]) > 0.0 ==>
         NamedReaches(hits, user, RankScore(hits[i])))
    && (forall i :: 0 <= i < |hits| && hits[i].assignee == user && hits[i].score > 0.0 ==>
         CountedReaches(canon, hits, user, hits[i].score))
  }

  function TopScore(rows: seq<Row>): real { if rows == [] then 0.0 else Strongest(rows) }

  lemma TopOfRows(canon: Canon, hits: seq<Hit>, user: string, mine: seq<Row>)
    requires AllValid(hits)
    requires forall i :: 0 <= i < |hits| && CountsFor(canon, hits[i], user) ==> RowOf(canon, hits[i]) in mine
    requires forall r :: r in mine
               ==> exists i :: 0 <= i < |hits| && CountsFor(canon, hits[i], user) && RowOf(canon, hits[i]) == r
    ensures TopScore(mine) >= 0.0
    ensures forall i :: 0 <= i < |hits| && CountsFor(canon, hits[i], user) ==> RankScore(hits[i]) <= TopScore(mine)
    ensures TopScore(mine) == 0.0 ||
      exists i :: 0 <= i < |hits| && CountsFor(canon, hits[i], user) && RankScore(hits[i]) == TopScore(mine)
  {
    assert forall i :: 0 <= i < |hits| ==> RowOf(canon, hits[i]).score == RankScore(hits[i]) >= 0.0;
    hide RowOf, RankScore, CountsFor, Strongest, Hit.Valid;
    if mine != [] { StrongestIsMax(mine); }
  }

  /** The strongest evidence of the user's rows, or 0 without any. */
  function Strength(canon: Canon, hits: seq<Hit>, user: string): real { TopScore(RowsOf(RowPerHit(canon, hits), user)) }

  lemma StrengthIsMax(canon: Canon, hits: seq<Hit>, user: string)
    requires AllValid(hits)
    ensures Strength(canon, hits, user) >= 0.0
    ensures forall i :: 0 <= i < |hits| && CountsFor(canon, hits[i], user)
              ==> RankScore(hits[i]) <= Strength(canon, hits, user)
    ensures Strength(canon, hits, user) == 0.0 ||
      exists i :: 0 <= i < |hits| && CountsFor(canon, hits[i], user)
        && RankScore(hits[i]) == Strength(canon, hits, user)
  {
    MineFromHits(canon, hits, user);
    var mine := RowsOf(RowPerHit(canon, hits), user);
    forall r | r in mine ensures exists i :: 0 <= i < |hits| && CountsFor(canon, hits[i], user)
                                   && RowOf(canon, hits[i]) == r {
      var i :| 0 <= i < |hits| && CountsFor(canon, hits[i], user) && RowOf(canon, hits[i]) == r;
    }
    TopOfRows(canon, hits, user, mine);
    hide RowsOf, TopScore, RankScore, CountsFor;
  }

  lemma MatchedIff(canon: Canon, hits: seq<Hit>, user: string)
    requires AllValid(hits) && user != ""
    ensures Strength(canon, hits, user) == PolicyBest(hits, user) <==> Matched(canon, hits, user)
  {
    StrengthIsMax(canon, hits, user);
    PolicyBestIsMax(hits, user);
    var strong, best := Strength(canon, hits, user), PolicyBest(hits, user);
    hide Strength, PolicyBest, CountsFor, RankScore;
    if strong == best {
      assert strong > 0.0 ==> CountedReaches(canon, hits, user, strong) && NamedReaches(hits, user, best);
    } else if strong > best {
      var i :| 0 <= i < |hits| && CountsFor(canon, hits[i], user) && RankScore(hits[i]) == strong;
      assert !NamedReaches(hits, user, RankScore(hits[i]));
    } else {
      var i :| 0 <= i < |hits| && hits[i].assignee == user && hits[i].score == best;
      assert !CountedReaches(canon, hits, user, hits[i].score);
    }
  }

  /**
   * Without rerank scores the second half is automatic: agreement fails only through a stronger hit in another
   * spelling.
   */
  lemma WithoutRerank(canon: Canon, hits: seq<Hit>, user: string)
    requires user != "" && canon(user) == Some(user) && forall i :: 0 <= i < |hits| ==> hits[i].rerank.None?
    ensures Matched(canon, hits, user) <==>
      forall i :: 0 <= i < |hits| && CountsFor(canon, hits[i], user) && hits[i].score > 0.0
        ==> NamedReaches(hits, user, hits[i].score)
  {
    forall i | 0 <= i < |hits| && hits[i].assignee == user ensures CountedReaches(canon, hits, user, hits[i].score) {
      assert CountsFor(canon, hits[i], user) && RankScore(hits[i]) >= hits[i].score;
    }
  }

  lemma SelectedHits(hits: seq<Hit>, limit: nat)
    requires AllValid(hits)
    ensures AllValid(Select(hits, limit)) && forall i :: 0 <= i < |Select(hits, limit)|
                                               ==> Select(hits, limit)[i] in hits
  {
    SelectionIsTopK(hits, limit);
    var s := Select(hits, limit);
    hide Select, KeyOf;
    forall i | 0 <= i < |s| ensures s[i].Valid() && s[i] in hits { assert BestOfKey(hits, s[i]); }
  }

  /**
   * For any selection of valid hits and any user id, whatever the spellings and rerank scores, the two aggregations
   * agree if and only if what is counted for the user and what names the user match; with a canonical id and no rerank
   * scores, if and only if no other spelling of it scores higher.
   */
  lemma AggregationsAgreeIff(canon: Canon, hits: seq<Hit>, limit: nat, user: string)
    requires AllValid(hits) && user != ""
    ensures var s := Select(hits, limit);
      && (Agree(canon, s, user) <==> Matched(canon, s, user))
      && (canon(user) == Some(user) && (forall i :: 0 <= i < |hits| ==> hits[i].rerank.None?) ==>
           (Agree(canon, s, user) <==>
             forall i :: 0 <= i < |s| && CountsFor(canon, s[i], user) && s[i].score > 0.0
               ==> NamedReaches(s, user, s[i].score)))
  {
    var s := Select(hits, limit);
    SelectedHits(hits, limit);
    SelectionYieldsOneRowEach(canon, hits, limit);
    hide Select, EvidenceRows, RowsOf, PolicyBest, Strongest, Matched, CountsFor;
    MatchedIff(canon, s, user);
    if canon(user) == Some(user) && forall i :: 0 <= i < |hits| ==> hits[i].rerank.None? {
      WithoutRerank(canon, s, user);
    }
  }

  /** A valid hit without rerank score whose assignee text, if any, is a canonical identifier. */
  ghost predicate Comparable(canon: Canon, h: Hit) {
    h.Valid() && h.rerank.None? && (h.assignee == "" || canon(h.assignee) == Some(h.assignee))
  }

  ghost predicate AllComparable(canon: Canon, hits: seq<Hit>) {
    forall i :: 0 <= i < |hits| ==> Comparable(canon, hits[i])
  }

  /**
   * For selected hits without rerank scores and with canonical identifiers alone, the two aggregations agree: a user's
   * strongest evidence is the larger of the policy's history and similarity, and a user without evidence has none
   * there.
   */
  lemma AggregationsAgree(canon: Canon, hits: seq<Hit>, limit: nat, user: string)
    requires AllComparable(canon, hits) && user != ""
    ensures Agree(canon, Select(hits, limit), user)
  {
    var s := Select(hits, limit);
    assert forall i :: 0 <= i < |hits| ==> Comparable(canon, hits[i]) ==> hits[i].Valid();
    SelectedHits(hits, limit);
    AggregationsAgreeIff(canon, hits, limit, user);
    hide Select, Agree;
    forall i | 0 <= i < |s| ensures s[i].Valid() && RankScore(s[i]) == s[i].score
      && (CountsFor(canon, s[i], user) <==> s[i].assignee == user) {
      var k :| 0 <= k < |hits| && hits[k] == s[i];
      assert Comparable(canon, hits[k]);
    }
    hide CountsFor, RankScore;
    assert Matched(canon, s, user);
  }

  /** A single hit in another spelling: the context counts it for its user, the policy for nobody. */
  lemma SpellingSplitsUser(canon: Canon, h: Hit, user: string)
    requires h.Valid() && h.assignee != "" && h.assignee != user && canon(h.assignee) == Some(user)
    ensures RowsOf(EvidenceRows(canon, [h]), user) == [RowOf(canon, h)]
    ensures PolicyBest([h], user) == 0.0
  {
    assert [h][..0] == [];
    assert EvidenceRows(canon, [h]) == [RowOf(canon, h)];
    assert Policy.Evidence([h][..0], user, false) == 0.0 && Policy.Evidence([h][..0], user, true) == 0.0;
    assert Policy.Evidence([h], user, false) == 0.0 && Policy.Evidence([h], user, true) == 0.0;
  }
}
