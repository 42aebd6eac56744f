/** Bounds of the retrieval loop and correctness of the selection. */
module RetrievalLaws {
  import opened Text
  import opened Bags
  import opened MailSchemas
  import opened Retrieval

  // ----- the loop -----

  function TotalQueries(cycles: seq<Cycle>): nat {
    if cycles == [] then 0 else |cycles[0].queries| + TotalQueries(cycles[1..])
  }

  /** A run of cycles numbered from `n`: only the last may be sufficient, and it is or the limit was reached. */
  ghost predicate WellRun(f: Facts, cycles: seq<Cycle>, limit: nat, n: nat, hits: seq<Hit>) {
    && |cycles| <= limit + 1 - n && cycles != []
    && (forall k :: 0 <= k < |cycles| ==> cycles[k].number == n + k && |cycles[k].queries| <= 12)
    && (forall k :: 0 <= k < |cycles| ==> cycles[k].sufficient == Sufficient(f, hits + HitsOf(cycles[..k + 1])))
    && (forall k :: 0 <= k < |cycles| - 1 ==> !cycles[k].sufficient)
    && (cycles[|cycles| - 1].sufficient || |cycles| == limit + 1 - n)
  }

  lemma {:induction false} HitsOfCons(c: Cycle, rest: seq<Cycle>)
    ensures HitsOf([c] + rest) == c.hits + HitsOf(rest)
  {
    if rest == [] {
      assert [c] + rest == [c] && [c][..0] == [];
    } else {
      var n := |rest| - 1;
      HitsOfCons(c, rest[..n]);
      assert ([c] + rest)[..n + 1] == [c] + rest[..n];
    }
  }

  lemma {:induction false} CyclesWellRun(f: Facts, search: Search, limit: nat, n: nat, hits: seq<Hit>,
      missing: seq<string>)
    requires 1 <= n <= limit
    ensures WellRun(f, Cycles(f, search, limit, n, hits, missing), limit, n, hits)
    decreases limit - n
  {
    hide Plan, Sufficient, Missing, RunQueries;
    var cycles := Cycles(f, search, limit, n, hits, missing);
    var c := cycles[0];
    var all := hits + c.hits;
    HitsOfCons(c, []);
    assert cycles[..1] == [c] + [] && HitsOf([]) == [];
    assert hits + HitsOf(cycles[..1]) == all;
    if c.sufficient || n == limit {
      assert n == limit ==> Cycles(f, search, limit, n + 1, all, Missing(f, all)) == [];
      assert cycles == [c];
    } else {
      var rest := Cycles(f, search, limit, n + 1, all, Missing(f, all));
      CyclesWellRun(f, search, limit, n + 1, all, Missing(f, all));
      assert cycles == [c] + rest;
      hide Cycles;
      WellRunCons(f, c, rest, limit, n, hits);
    }
  }

  lemma WellRunCons(f: Facts, c: Cycle, rest: seq<Cycle>, limit: nat, n: nat, hits: seq<Hit>)
    requires n < limit && WellRun(f, rest, limit, n + 1, hits + c.hits)
    requires c.number == n && |c.queries| <= 12 && !c.sufficient && !Sufficient(f, hits + c.hits)
    ensures WellRun(f, [c] + rest, limit, n, hits)
  {
    hide Sufficient;
    var cycles := [c] + rest;
    forall k | 0 <= k < |cycles| ensures cycles[k].sufficient == Sufficient(f, hits + HitsOf(cycles[..k + 1])) {
      assert cycles[..k + 1] == [c] + rest[..k];
      HitsOfCons(c, rest[..k]);
      ConcatAssociates(hits, c.hits, HitsOf(rest[..k]));
      if k > 0 {
        assert rest[..(k - 1) + 1] == rest[..k];
      } else {
        assert hits + c.hits + HitsOf(rest[..0]) == hits + c.hits;
      }
    }
  }

  lemma {:induction false} QueriesBounded(cycles: seq<Cycle>)
    requires forall k :: 0 <= k < |cycles| ==> |cycles[k].queries| <= 12
    ensures TotalQueries(cycles) <= 12 * |cycles|
  {
    if cycles != [] { QueriesBounded(cycles[1..]); }
  }

  /** At most three cycles and thirty-six queries; the loop goes on exactly while the hits so far are insufficient. */
  lemma LoopBounds(f: Facts, search: Search, maxCycles: int, promptLimit: int)
    ensures var cycles := Retrieve(f, search, maxCycles, promptLimit).cycles;
      && 1 <= |cycles| <= 3 && TotalQueries(cycles) <= 36
      && (forall k :: 0 <= k < |cycles| ==> cycles[k].sufficient == Sufficient(f, HitsOf(cycles[..k + 1])))
      && (forall k :: 0 <= k < |cycles| - 1 ==> !cycles[k].sufficient)
      && (cycles[|cycles| - 1].sufficient || |cycles| == MaxCycles(maxCycles))
  {
    hide Cycles, Sufficient, Select;
    var cycles := Retrieve(f, search, maxCycles, promptLimit).cycles;
    CyclesWellRun(f, search, MaxCycles(maxCycles), 1, [], []);
    QueriesBounded(cycles);
    forall k | 0 <= k < |cycles| ensures cycles[k].sufficient == Sufficient(f, HitsOf(cycles[..k + 1])) {
      assert [] + HitsOf(cycles[..k + 1]) == HitsOf(cycles[..k + 1]);
    }
  }

  // ----- the selection -----

  ghost predicate DistinctKeys(hits: seq<Hit>) {
    forall i, j :: 0 <= i < j < |hits| ==> KeyOf(hits[i]) != KeyOf(hits[j])
  }

  /** `h` is among `hits` and no hit of its key scores more. */
  ghost predicate BestOfKey(hits: seq<Hit>, h: Hit) {
    && h in hits
    && forall i :: 0 <= i < |hits| && KeyOf(hits[i]) == KeyOf(h) ==> hits[i].score <= h.score
  }

  ghost predicate HasKey(hits: seq<Hit>, key: (string, string, string)) {
    exists k :: 0 <= k < |hits| && KeyOf(hits[k]) == key
  }

  /** De-duplication keeps, for every key that occurs, exactly one hit, and it is a best one of that key. */
  lemma {:induction false} BestPerKeyCorrect(hits: seq<Hit>)
    ensures DistinctKeys(BestPerKey(hits))
    ensures forall h :: h in BestPerKey(hits) ==> BestOfKey(hits, h)
    ensures forall i :: 0 <= i < |hits| ==> HasKey(BestPerKey(hits), KeyOf(hits[i]))
  {
    if hits != [] {
      var n := |hits| - 1;
      BestPerKeyCorrect(hits[..n]);
      PutKeepsBest(hits[..n], BestPerKey(hits[..n]), hits[n]);
      assert hits == hits[..n] + [hits[n]];
      hide BestOfKey, DistinctKeys;
    }
  }

  function Put(kept: seq<Hit>, hit: Hit): seq<Hit> {
    var i := Find(kept, KeyOf(hit));
    if i == |kept| then kept + [hit] else if hit.score > kept[i].score then kept[i := hit] else kept
  }

  lemma PutKeepsBest(hits: seq<Hit>, kept: seq<Hit>, hit: Hit)
    requires DistinctKeys(kept) && forall h :: h in kept ==> BestOfKey(hits, h)
    requires forall i :: 0 <= i < |hits| ==> HasKey(kept, KeyOf(hits[i]))
    ensures DistinctKeys(Put(kept, hit))
    ensures forall h :: h in Put(kept, hit) ==> BestOfKey(hits + [hit], h)
    ensures forall i :: 0 <= i < |hits + [hit]| ==> HasKey(Put(kept, hit), KeyOf((hits + [hit])[i]))
  {
    hide Find;
    var at, put, more := Find(kept, KeyOf(hit)), Put(kept, hit), hits + [hit];
    assert forall k :: 0 <= k < |kept| && k != at ==> put[k] == kept[k];
    forall i | 0 <= i < |more| ensures HasKey(put, KeyOf(more[i])) {
      if i < |hits| {
        var k :| 0 <= k < |kept| && KeyOf(kept[k]) == KeyOf(hits[i]);
        assert KeyOf(put[k]) == KeyOf(more[i]);
      } else {
        assert KeyOf(put[at]) == KeyOf(more[i]);
      }
    }
    forall h | h in put ensures BestOfKey(more, h) {
      PutBest(hits, kept, hit, h);
    }
  }

  lemma PutBest(hits: seq<Hit>, kept: seq<Hit>, hit: Hit, h: Hit)
    requires DistinctKeys(kept) && forall x :: x in kept ==> BestOfKey(hits, x)
    requires forall i :: 0 <= i < |hits| ==> HasKey(kept, KeyOf(hits[i]))
    requires h in Put(kept, hit)
    ensures BestOfKey(hits + [hit], h)
  {
    var at, put, more := Find(kept, KeyOf(hit)), Put(kept, hit), hits + [hit];
    var j :| 0 <= j < |put| && put[j] == h;
    if j < |kept| && j != at { assert BestOfKey(hits, kept[j]); }
    if at < |kept| { assert BestOfKey(hits, kept[at]); }
    hide Find, KeyOf;
    forall i | 0 <= i < |more| && KeyOf(more[i]) == KeyOf(h) ensures more[i].score <= h.score {
      if i < |hits| {
        assert more[i] == hits[i];
        var k :| 0 <= k < |kept| && KeyOf(kept[k]) == KeyOf(hits[i]);
        assert BestOfKey(hits, kept[k]);
      }
    }
    assert more[|hits|] == hit;
    if h != hit {
      var i :| 0 <= i < |hits| && hits[i] == h;
      assert more[i] == h;
    }
  }

  /** The selection is the de-duplicated list in a different order, cut at the limit. */
  lemma Ranking(hits: seq<Hit>) returns (ranked: seq<Hit>)
    ensures ranked == SortBy(RankScore, BestPerKey(hits)) && Falling(RankScore, ranked)
    ensures multiset(ranked) == multiset(BestPerKey(hits)) && |ranked| == |BestPerKey(hits)|
    ensures forall h :: h in ranked <==> h in BestPerKey(hits)
  {
    ranked := SortBy(RankScore, BestPerKey(hits));
    SortSorts(RankScore, BestPerKey(hits));
    hide SortBy, BestPerKey;
    assert forall h :: h in ranked <==> h in multiset(ranked);
    assert forall h :: h in BestPerKey(hits) <==> h in multiset(BestPerKey(hits));
  }

  lemma DistinctAfterSort(a: seq<Hit>, b: seq<Hit>)
    requires DistinctKeys(a) && multiset(a) == multiset(b)
    ensures DistinctKeys(b)
  {
    MapBag(KeyOf, a, b);
    DistinctBag(Map(KeyOf, a), Map(KeyOf, b));
    forall i, j | 0 <= i < j < |b| ensures KeyOf(b[i]) != KeyOf(b[j]) {
      assert Map(KeyOf, b)[i] != Map(KeyOf, b)[j];
    }
  }

  /**
   * The selection is a correct de-duplicated top-k: distinct keys, a best hit for each, no more than the limit, and no
   * key left out that outranks one kept, nor any left out while there was room.
   */
  lemma SelectionIsTopK(hits: seq<Hit>, limit: nat)
    ensures var s := Select(hits, limit);
      && |s| <= limit && DistinctKeys(s)
      && (forall h :: h in s ==> BestOfKey(hits, h))
      && (forall i :: 0 <= i < |hits|
            ==> HasKey(s, KeyOf(hits[i])) || (|s| == limit && Outranked(hits, s, KeyOf(hits[i]))))
  {
    BestPerKeyCorrect(hits);
    var ranked := Ranking(hits);
    DistinctAfterSort(BestPerKey(hits), ranked);
    hide SortBy, BestPerKey, BestOfKey;
    var s := Select(hits, limit);
    assert s <= ranked && forall k :: 0 <= k < |s| ==> s[k] == ranked[k];
    forall h | h in s ensures BestOfKey(hits, h) {
      assert h in ranked;
    }
    forall i | 0 <= i < |hits| ensures HasKey(s, KeyOf(hits[i]))
      || (|s| == limit && Outranked(hits, s, KeyOf(hits[i]))) {
      var key := KeyOf(hits[i]);
      assert HasKey(BestPerKey(hits), key);
      KeptOrOutranked(hits, ranked, limit, key);
    }
  }

  /** Some best hit of the key ranks no higher than any of those in `s`. */
  ghost predicate Outranked(hits: seq<Hit>, s: seq<Hit>, key: (string, string, string)) {
    exists d :: d in BestPerKey(hits) && KeyOf(d) == key && forall k :: 0 <= k < |s| ==> RankScore(s[k]) >= RankScore(d)
  }

  lemma {:induction false} KeptOrOutranked(hits: seq<Hit>, ranked: seq<Hit>, limit: nat, key: (string, string, string))
    requires Falling(RankScore, ranked) && (forall h :: h in ranked <==> h in BestPerKey(hits))
      && HasKey(BestPerKey(hits), key)
    ensures var s := Take(ranked, limit); HasKey(s, key) || (|s| == limit && Outranked(hits, s, key))
  {
    hide BestPerKey, KeyOf;
    var b :| 0 <= b < |BestPerKey(hits)| && KeyOf(BestPerKey(hits)[b]) == key;
    var d, s := BestPerKey(hits)[b], Take(ranked, limit);
    assert d in ranked;
    var at :| 0 <= at < |ranked| && ranked[at] == d;
    if at < |s| {
      assert KeyOf(s[at]) == key;
    } else {
      forall k | 0 <= k < |s| ensures RankScore(s[k]) >= RankScore(d) {
        assert RankScore(ranked[k]) >= RankScore(ranked[at]);
      }
    }
  }

  /** Without rerank scores a strong hit is never lost: if one was found, one is selected. */
  lemma StrongHitSurvives(hits: seq<Hit>, limit: nat)
    requires limit > 0 && HasStrong(hits) && forall i :: 0 <= i < |hits| ==> hits[i].rerank.None?
    ensures HasStrong(Select(hits, limit))
  {
    SelectionIsTopK(hits, limit);
    BestPerKeyCorrect(hits);
    hide Select, BestPerKey;
    var i :| 0 <= i < |hits| && hits[i].score >= 0.65;
    var s := Select(hits, limit);
    if HasKey(s, KeyOf(hits[i])) {
      var k :| 0 <= k < |s| && KeyOf(s[k]) == KeyOf(hits[i]);
      assert BestOfKey(hits, s[k]);
      assert s[k].score >= 0.65;
    } else {
      var d :| d in BestPerKey(hits) && KeyOf(d) == KeyOf(hits[i]) && forall k :: 0 <= k < |s|
                                                                        ==> RankScore(s[k]) >= RankScore(d);
      assert BestOfKey(hits, d) && BestOfKey(hits, s[0]);
      assert s[0].score >= 0.65;
    }
  }

  /** A strong hit is kept for its key with fewer than `limit` others ahead of it in the ranking. */
  predicate StrongInReach(kept: seq<Hit>, limit: nat) {
    exists i :: 0 <= i < |kept| && kept[i].score >= 0.65 && Ahead(RankScore, kept, i, |kept|) < limit
  }

  /** De-duplication keeps a strong hit if there is one. */
  lemma StrongKept(hits: seq<Hit>)
    ensures HasStrong(BestPerKey(hits)) <==> HasStrong(hits)
  {
    BestPerKeyCorrect(hits);
    hide BestPerKey, KeyOf;
    var kept := BestPerKey(hits);
    if HasStrong(hits) {
      var i :| 0 <= i < |hits| && hits[i].score >= 0.65;
      var k :| 0 <= k < |kept| && KeyOf(kept[k]) == KeyOf(hits[i]);
      assert BestOfKey(hits, kept[k]);
      assert kept[k].score >= 0.65;
    }
    if HasStrong(kept) {
      var k :| 0 <= k < |kept| && kept[k].score >= 0.65;
      assert BestOfKey(hits, kept[k]);
      var i :| 0 <= i < |hits| && hits[i] == kept[k];
      assert hits[i].score >= 0.65;
    }
  }

  /**
   * For all hits and limits, rerank scores included: the selection has a strong hit if and only if one of the kept
   * strong hits has fewer than `limit` kept hits ahead of it, those that rank higher and the equal ones found earlier.
   * A strong hit is kept whenever one was found; without rerank scores (StrongHitSurvives) the condition is then met.
   * The method accepts rerank scores, though none of the repository's retrievers sets one.
   */
  lemma StrongSurvivesIff(hits: seq<Hit>, limit: nat)
    ensures HasStrong(BestPerKey(hits)) <==> HasStrong(hits)
    ensures HasStrong(Select(hits, limit)) <==> StrongInReach(BestPerKey(hits), limit)
  {
    var kept, s := BestPerKey(hits), Select(hits, limit);
    var ranked := SortBy(RankScore, kept);
    SortSorts(RankScore, kept);
    StrongKept(hits);
    hide BestPerKey, SortBy, Ahead;
    assert s <= ranked && |s| == if |ranked| <= limit then |ranked| else limit;
    if HasStrong(s) {
      var k :| 0 <= k < |s| && s[k].score >= 0.65;
      assert s[k] == ranked[k];
      var i := PlaceHasElement(RankScore, kept, k);
      assert kept[i].score >= 0.65;
    }
    if StrongInReach(kept, limit) {
      var i :| 0 <= i < |kept| && kept[i].score >= 0.65 && Ahead(RankScore, kept, i, |kept|) < limit;
      SortPlaces(RankScore, kept, i);
      var k := Ahead(RankScore, kept, i, |kept|);
      assert s[k] == ranked[k];
    }
  }

  /** An input that loses it: a reranker puts the strong hit behind a weak one and the limit is one. */
  lemma RerankLosesStrongHit(strong: Hit, weak: Hit)
    requires strong.score >= 0.65 && weak.score < 0.65 && KeyOf(strong) != KeyOf(weak)
    requires strong.rerank.Some? && RankScore(weak) > strong.rerank.value
    ensures HasStrong([strong, weak]) && !HasStrong(Select([strong, weak], 1))
  {
    var hits := [strong, weak];
    assert hits[0].score >= 0.65;
    assert hits[..1] == [strong] && [strong][..0] == [];
    assert BestPerKey([strong]) == [strong];
    assert BestPerKey(hits) == [strong, weak];
    StrongSurvivesIff(hits, 1);
    assert RankScore(hits[1]) > RankScore(hits[0]);
    hide BestPerKey, Select, RankScore, KeyOf;
    assert Ahead(RankScore, hits, 0, 0) == 0;
    assert Ahead(RankScore, hits, 0, 1) == 0;
    assert Ahead(RankScore, hits, 0, 2) == 1;
  }

  /** Every selected hit was found, so a sufficient final context means the last cycle was sufficient. */
  lemma FinalSufficientMeansLast(f: Facts, search: Search, maxCycles: int, promptLimit: int)
    ensures var r := Retrieve(f, search, maxCycles, promptLimit);
      r.sufficient ==> r.cycles != [] && r.cycles[|r.cycles| - 1].sufficient
  {
    LoopBounds(f, search, maxCycles, promptLimit);
    var r := Retrieve(f, search, maxCycles, promptLimit);
    var all := HitsOf(r.cycles);
    SelectionIsTopK(all, PromptLimit(promptLimit));
    hide Cycles, Select, Sufficient;
    forall i | 0 <= i < |r.selected| ensures r.selected[i] in all {
      assert BestOfKey(all, r.selected[i]);
    }
    SufficientMonotone(f, r.selected, all);
    assert r.cycles[..|r.cycles| - 1 + 1] == r.cycles;
  }
}
