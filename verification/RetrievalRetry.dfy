/**
 * What a retry can find: the cut of a plan to twelve queries falls on the queries added last, which are the broader
 * ones.
 */
module RetrievalRetry {
  import opened Text
  import opened Bags
  import opened MailSchemas
  import opened DecisionAgent
  import opened Retrieval
  import opened RetrievalLaws

  /** The queries that depend on the facts alone, in front of the semantic and the broadening one. */
  function FactQueries(f: Facts): seq<Query> {
    ExactQueries(f) + Map(RuleQuery, Take(f.requestTypes, 3)) + Map(CapabilityQuery, CapabilityValues(f))
  }

  predicate Broadens(queries: seq<Query>) {
    exists i :: 0 <= i < |queries| && queries[i].purpose == "broaden_unresolved_context"
  }

  // ----- when a retry searches more broadly -----

  lemma MappedPurpose(make: string -> Query, purpose: string, values: seq<string>)
    requires forall v :: make(v).purpose == purpose
    ensures forall i :: 0 <= i < |Map(make, values)| ==> Map(make, values)[i].purpose == purpose
  {
  }

  lemma FactQueriesAreNarrow(f: Facts)
    ensures !Broadens(FactQueries(f))
  {
    MappedPurpose(ExactQuery("customer"), "customer", Take(f.customerCandidates, 2));
    MappedPurpose(ExactQuery("part_number"), "part_number", Take(f.partNumbers, 3));
    MappedPurpose(ExactQuery("project"), "project", Take(f.projectNumbers, 2));
    MappedPurpose(ExactQuery("vessel"), "vessel", Take(f.vesselNames, 2));
    MappedPurpose(RuleQuery, "business_type_rule", Take(f.requestTypes, 3));
    MappedPurpose(CapabilityQuery, "assignee_capability", CapabilityValues(f));
    hide Map, Take, CapabilityValues;
  }

  lemma SomethingMissing(f: Facts)
    ensures InitialMissing(f) != []
  {
    var gaps := f.missingInformation
      + (if f.customerName == "" && f.customerCandidates == [] && f.senderDomain == "" then ["customer_context"]
        else [])
      + (if f.requestTypes == [] && f.requestedActions == [] then ["business_type_context"] else [])
      + (if f.productGroups == [] && f.productNames == [] && f.partNumbers == [] then ["product_context"] else [])
      + ["assignee_context"];
    UniqueKeepsElements(gaps);
    hide Unique;
    assert gaps[|gaps| - 1] in Unique(gaps);
  }

  function Reported(f: Facts, missing: seq<string>): seq<string> {
    if missing == [] then InitialMissing(f) else missing
  }

  /** The queries in front of the broadening one. */
  function Front(f: Facts, cycle: nat, reported: seq<string>): seq<Query> {
    var semantic := SemanticText(f, reported);
    FactQueries(f) + if semantic != ""
      then [Query("similar_confirmed_cases", SimilarCase, semantic, if cycle == 1 then 8 else 12)] else []
  }

  function BroadQuery(f: Facts, reported: seq<string>): Query {
    Query("broaden_unresolved_context", SimilarCase, Join(reported + Take(f.requestedActions, 2), " | "), 12)
  }

  lemma PlanCuts(f: Facts, cycle: nat, missing: seq<string>)
    ensures var reported := Reported(f, missing);
      Plan(f, cycle, missing)
        == Take(Front(f, cycle, reported) + if cycle > 1 then [BroadQuery(f, reported)] else [], 12)
  {
    SomethingMissing(f);
    hide SemanticText, CapabilityValues, ExactQueries, Map, InitialMissing, Join, Take, RuleQuery, CapabilityQuery;
    var reported := Reported(f, missing);
    assert AllQueries(f, cycle, reported) == Front(f, cycle, reported) + if cycle > 1 then [BroadQuery(f, reported)]
      else [];
  }

  /**
   * A plan holds the broadening query if and only if the cycle is a later one and at most eleven queries stand before
   * it.
   */
  lemma BroadensIff(f: Facts, cycle: nat, missing: seq<string>)
    ensures Broadens(Plan(f, cycle, missing)) <==>
      cycle > 1 && |FactQueries(f)| + (if SemanticText(f, Reported(f, missing)) != "" then 1 else 0) <= 11
  {
    PlanCuts(f, cycle, missing);
    FactQueriesAreNarrow(f);
    hide FactQueries, SemanticText, Reported, Plan, Take;
    var reported := Reported(f, missing);
    CutKeeps(Front(f, cycle, reported), BroadQuery(f, reported), cycle > 1);
  }

  lemma CutKeeps(front: seq<Query>, broad: Query, more: bool)
    requires !Broadens(front) && broad.purpose == "broaden_unresolved_context"
    ensures Broadens(Take(front + (if more then [broad] else []), 12)) <==> more && |front| <= 11
  {
    var all := front + if more then [broad] else [];
    var cut := Take(all, 12);
    if more && |front| <= 11 {
      assert cut[|front|] == broad;
    } else {
      forall i | 0 <= i < |cut| ensures cut[i].purpose != "broaden_unresolved_context" {
        assert cut[i] == front[i];
      }
    }
  }

  lemma FilledJoin(texts: seq<string>)
    requires texts != [] && (|texts| == 1 ==> texts[0] != "")
    ensures Join(texts, " | ") != ""
  {
  }

  /** The semantic query is never empty once a judged cycle reported a gap. */
  lemma SemanticAsks(f: Facts, missing: seq<string>)
    requires missing != [] && missing[0] != "" && Trimmed(missing[0])
    ensures SemanticText(f, missing) != ""
  {
    var gap := missing[0];
    var parts := Take(f.requestedActions, 3) + Take(f.requestTypes, 3) + Take(f.productNames, 3)
      + Take(f.productGroups, 2)
                 + Take(f.urgencySignals, 2) + Take(missing, 3);
    var filled := Filter((p: string) => Strip(p) != "", parts);
    StripFixes(gap);
    assert gap in parts by { assert Take(missing, 3)[0] == gap; }
    FilterSound((p: string) => Strip(p) != "", parts);
    var stripped := Map(Strip, filled);
    assert gap in stripped by {
      var i :| 0 <= i < |filled| && filled[i] == gap;
      assert stripped[i] == gap;
    }
    UniqueKeepsElements(stripped);
    var texts := Unique(stripped);
    assert SemanticText(f, missing) == Join(texts, " | ");
    hide *;
    assert |texts| == 1 ==> texts[0] == gap;
    FilledJoin(texts);
  }

  /** A later cycle is told of a gap. */
  ghost predicate Told(n: nat, missing: seq<string>) {
    n > 1 ==> missing != [] && missing[0] != "" && Trimmed(missing[0])
  }

  lemma GapsAreTold(f: Facts, hits: seq<Hit>, n: nat)
    requires !Sufficient(f, hits)
    ensures Told(n, Missing(f, hits))
  {
    SufficientMonotone(f, hits, hits);
    hide Sufficient, HasAssignee, HasRetriever, HasStrong;
    assert Trimmed("assignee_context") && Trimmed("business_type_context") && Trimmed("customer_or_product_context")
      && Trimmed("strong_retrieval_evidence");
  }

  lemma ToldBroadens(f: Facts, n: nat, missing: seq<string>)
    requires Told(n, missing)
    ensures Broadens(Plan(f, n, missing)) <==> n > 1 && |FactQueries(f)| <= 10
  {
    BroadensIff(f, n, missing);
    if n > 1 { SemanticAsks(f, missing); }
    hide Broadens, FactQueries, Plan, SemanticText, Trimmed;
  }

  /** Of cycles numbered from `n`, those after the very first broaden if the facts leave room. */
  ghost predicate Broadened(f: Facts, cycles: seq<Cycle>, n: nat) {
    forall k :: 0 <= k < |cycles| ==> (Broadens(cycles[k].queries) <==> n + k > 1 && |FactQueries(f)| <= 10)
  }

  lemma NoneBroadened(f: Facts, n: nat)
    ensures Broadened(f, [], n)
  {
  }

  lemma NoCyclesLeft(f: Facts, search: Search, limit: nat, n: nat, hits: seq<Hit>, missing: seq<string>)
    requires 1 <= n && limit < n
    ensures Broadened(f, Cycles(f, search, limit, n, hits, missing), n)
  {
  }

  lemma BroadenedCons(f: Facts, c: Cycle, rest: seq<Cycle>, n: nat)
    requires Broadens(c.queries) <==> n > 1 && |FactQueries(f)| <= 10
    requires Broadened(f, rest, n + 1)
    ensures Broadened(f, [c] + rest, n)
  {
    hide Broadens, FactQueries;
    forall k | 0 < k < |rest| + 1 ensures Broadens(([c] + rest)[k].queries) <==> n + k > 1 && |FactQueries(f)| <= 10 {
      assert ([c] + rest)[k] == rest[k - 1];
    }
  }

  lemma CyclesStep(f: Facts, search: Search, limit: nat, n: nat, hits: seq<Hit>, missing: seq<string>)
      returns (c: Cycle, all: seq<Hit>)
    requires 1 <= n <= limit
    ensures c.queries == Plan(f, n, missing)
    ensures Cycles(f, search, limit, n, hits, missing)
            == [c] + if Sufficient(f, all) then [] else Cycles(f, search, limit, n + 1, all, Missing(f, all))
  {
    hide Plan, RunQueries, Sufficient, Missing;
    var found := RunQueries(search, n, Plan(f, n, missing));
    all := hits + found;
    c := Cycle(n, Plan(f, n, missing), found, Sufficient(f, all), Missing(f, all));
  }

  lemma StepBroadens(f: Facts, search: Search, limit: nat, n: nat, hits: seq<Hit>, missing: seq<string>)
      returns (all: seq<Hit>)
    requires 1 <= n <= limit && Told(n, missing)
    ensures Sufficient(f, all) || Broadened(f, Cycles(f, search, limit, n + 1, all, Missing(f, all)), n + 1)
            ==> Broadened(f, Cycles(f, search, limit, n, hits, missing), n)
  {
    hide *;
    var c, later := CyclesStep(f, search, limit, n, hits, missing);
    all := later;
    ToldBroadens(f, n, missing);
    var rest := if Sufficient(f, all) then [] else Cycles(f, search, limit, n + 1, all, Missing(f, all));
    NoneBroadened(f, n + 1);
    if Broadened(f, rest, n + 1) { BroadenedCons(f, c, rest, n); }
  }

  lemma {:induction false} CyclesBroaden(f: Facts, search: Search, limit: nat, n: nat, hits: seq<Hit>,
      missing: seq<string>)
    requires 1 <= n <= limit + 1 && Told(n, missing)
    ensures Broadened(f, Cycles(f, search, limit, n, hits, missing), n)
    decreases limit + 1 - n
  {
    hide *;
    if n <= limit {
      var all := StepBroadens(f, search, limit, n, hits, missing);
      if !Sufficient(f, all) {
        GapsAreTold(f, all, n + 1);
        CyclesBroaden(f, search, limit, n + 1, all, Missing(f, all));
      }
    } else {
      NoCyclesLeft(f, search, limit, n, hits, missing);
    }
  }

  /** In any run the retries search more broadly if and only if the facts alone give at most ten queries. */
  lemma RetryBroadensIff(f: Facts, search: Search, maxCycles: int, promptLimit: int)
    ensures Broadened(f, Retrieve(f, search, maxCycles, promptLimit).cycles, 1)
  {
    CyclesBroaden(f, search, MaxCycles(maxCycles), 1, [], []);
    hide Broadened, Cycles, Select, Sufficient, Missing;
  }

  // ----- a full plan makes retries idle -----

  /** The retrievers answer a query alike in every cycle. */
  ghost predicate Steady(search: Search) {
    forall n: nat, m: nat, q: Query :: search(n, q) == search(m, q)
  }

  lemma FullPlan(f: Facts, cycle: nat, missing: seq<string>)
    requires |FactQueries(f)| >= 12
    ensures Plan(f, cycle, missing) == FactQueries(f)[..12]
  {
    PlanCuts(f, cycle, missing);
    hide FactQueries, SemanticText, Reported, Plan;
  }

  lemma {:induction false} SteadyRuns(search: Search, n: nat, m: nat, queries: seq<Query>)
    requires Steady(search)
    ensures RunQueries(search, n, queries) == RunQueries(search, m, queries)
  {
    if queries != [] { SteadyRuns(search, n, m, queries[..|queries| - 1]); }
  }

  lemma KnownHit(hits: seq<Hit>, hit: Hit)
    requires hit in hits
    ensures Put(BestPerKey(hits), hit) == BestPerKey(hits)
  {
    BestPerKeyCorrect(hits);
    hide BestPerKey, KeyOf;
    var kept := BestPerKey(hits);
    var k :| 0 <= k < |hits| && hits[k] == hit;
    assert HasKey(kept, KeyOf(hits[k]));
    var at := Find(kept, KeyOf(hit));
    assert at < |kept| ==> BestOfKey(hits, kept[at]);
  }

  /** Hits that were there already do not change the best hit of any key. */
  lemma {:induction false} NothingNew(hits: seq<Hit>, again: seq<Hit>)
    requires Includes(hits, again)
    ensures BestPerKey(hits + again) == BestPerKey(hits)
  {
    if again == [] {
      assert hits + again == hits;
    } else {
      var n := |again| - 1;
      NothingNew(hits, again[..n]);
      KnownHit(hits, again[n]);
      assert (hits + again)[..|hits| + n] == hits + again[..n];
      hide KeyOf, Find;
    }
  }

  lemma SameJudgement(f: Facts, hits: seq<Hit>, once: seq<Hit>)
    requires Includes(hits, once) && Includes(once, hits)
    ensures Sufficient(f, hits) == Sufficient(f, once) && Missing(f, hits) == Missing(f, once)
  {
    HasMonotone(hits, once);
    HasMonotone(once, hits);
    hide HasAssignee, HasRetriever, HasStrong;
  }

  /** Every cycle asks the same queries and finds the same. */
  ghost predicate Repeated(f: Facts, cycles: seq<Cycle>, n: nat, queries: seq<Query>, once: seq<Hit>) {
    forall k :: 0 <= k < |cycles| ==> cycles[k] == Cycle(n + k, queries, once, Sufficient(f, once), Missing(f, once))
  }

  /** What one cycle of a full plan does. */
  ghost predicate Idle(f: Facts, search: Search, n: nat, hits: seq<Hit>, missing: seq<string>, queries: seq<Query>,
      once: seq<Hit>) {
    && Plan(f, n, missing) == queries && RunQueries(search, n, queries) == once && Includes(once, hits + once)
    && Sufficient(f, hits + once) == Sufficient(f, once) && Missing(f, hits + once) == Missing(f, once)
  }

  lemma IdleCycle(f: Facts, search: Search, n: nat, hits: seq<Hit>, missing: seq<string>, once: seq<Hit>)
    requires Steady(search) && |FactQueries(f)| >= 12 && once == RunQueries(search, 1, FactQueries(f)[..12])
    requires Includes(once, hits)
    ensures Idle(f, search, n, hits, missing, FactQueries(f)[..12], once)
  {
    FullPlan(f, n, missing);
    SteadyRuns(search, n, 1, FactQueries(f)[..12]);
    hide Plan, RunQueries, Sufficient, Missing, FactQueries, Steady, Take;
    SameJudgement(f, hits + once, once);
  }

  lemma {:induction false} IdleCycles(f: Facts, search: Search, limit: nat, n: nat, hits: seq<Hit>,
      missing: seq<string>, once: seq<Hit>)
    requires Steady(search) && |FactQueries(f)| >= 12 && once == RunQueries(search, 1, FactQueries(f)[..12])
    requires 1 <= n <= limit && Includes(once, hits)
    ensures var cycles := Cycles(f, search, limit, n, hits, missing);
      Repeated(f, cycles, n, FactQueries(f)[..12], once) && |cycles| == if Sufficient(f, once) then 1 else limit + 1 - n
    decreases limit - n
  {
    hide Plan, RunQueries, Sufficient, Missing, FactQueries, Steady, Take, Includes;
    IdleCycle(f, search, n, hits, missing, once);
    var all := hits + once;
    if !Sufficient(f, once) && n < limit {
      IdleCycles(f, search, limit, n + 1, all, Missing(f, all), once);
    }
  }

  lemma {:induction false} RepeatedHits(f: Facts, cycles: seq<Cycle>, n: nat, queries: seq<Query>, once: seq<Hit>)
    requires cycles != [] && Repeated(f, cycles, n, queries, once)
    ensures Includes(HitsOf(cycles), once) && BestPerKey(HitsOf(cycles)) == BestPerKey(once)
  {
    hide BestPerKey, Sufficient, Missing;
    var last := |cycles| - 1;
    if last == 0 {
      assert HitsOf(cycles[..0]) == [];
      assert HitsOf(cycles) == once;
    } else {
      RepeatedHits(f, cycles[..last], n, queries, once);
      NothingNew(HitsOf(cycles[..last]), once);
    }
  }

  /**
   * When the facts alone fill the plan and the retrievers are steady, the whole retry loop is idle: every cycle asks
   * the same queries, finds the same hits and reports the same gaps, and what is selected is what the first cycle
   * found.
   */
  lemma RetryIsIdle(f: Facts, search: Search, maxCycles: int, promptLimit: int)
    requires Steady(search) && |FactQueries(f)| >= 12
    ensures var r, queries := Retrieve(f, search, maxCycles, promptLimit), FactQueries(f)[..12];
      var once := RunQueries(search, 1, queries);
      && Repeated(f, r.cycles, 1, queries, once)
        && |r.cycles| == (if Sufficient(f, once) then 1 else MaxCycles(maxCycles))
      && r.selected == Select(once, PromptLimit(promptLimit))
  {
    var queries := FactQueries(f)[..12];
    var once := RunQueries(search, 1, queries);
    IdleCycles(f, search, MaxCycles(maxCycles), 1, [], [], once);
    hide FactQueries, RunQueries, Cycles, Sufficient, Missing, BestPerKey;
    RepeatedHits(f, Retrieve(f, search, maxCycles, promptLimit).cycles, 1, queries, once);
  }
}
