/** Bounded agentic retrieval: the plan of a cycle, the retry loop, and the selection of hits for the prompt. */
module Retrieval {
  import opened Text
  import opened Bags
  import opened MailSchemas
  import opened DecisionAgent

  datatype Query = Query(purpose: string, retriever: Retriever, text: string, limit: nat)
  datatype Cycle = Cycle(number: nat, queries: seq<Query>, hits: seq<Hit>, sufficient: bool, missing: seq<string>)
  datatype Context = Context(cycles: seq<Cycle>, selected: seq<Hit>, sufficient: bool, missing: seq<string>)

  /** What the retrievers return for a query of a cycle; a failing retriever returns None. */
  type Search = (nat, Query) -> Option<seq<Hit>>

  function Take<T>(values: seq<T>, n: nat): (r: seq<T>)
    ensures |r| == if |values| <= n then |values| else n
    ensures r <= values
  {
    if |values| <= n then values else values[..n]
  }

  // ----- the plan -----

  function InitialMissing(f: Facts): seq<string> {
    Unique(f.missingInformation
      + (if f.customerName == "" && f.customerCandidates == [] && f.senderDomain == "" then ["customer_context"]
        else [])
      + (if f.requestTypes == [] && f.requestedActions == [] then ["business_type_context"] else [])
      + (if f.productGroups == [] && f.productNames == [] && f.partNumbers == [] then ["product_context"] else [])
      + ["assignee_context"])
  }

  function ExactQuery(purpose: string): string -> Query { (text: string) => Query(purpose, Exact, text, 5) }

  function ExactQueries(f: Facts): seq<Query> {
    (if f.senderDomain != "" then [Query("sender_domain", Exact, f.senderDomain, 5)] else [])
    + Map(ExactQuery("customer"), Take(f.customerCandidates, 2))
    + Map(ExactQuery("part_number"), Take(f.partNumbers, 3))
    + Map(ExactQuery("project"), Take(f.projectNumbers, 2))
    + Map(ExactQuery("vessel"), Take(f.vesselNames, 2))
  }

  function RuleQuery(text: string): Query { Query("business_type_rule", RoutingRule, text, 8) }
  function CapabilityQuery(text: string): Query { Query("assignee_capability", AssigneeCapability, text, 8) }

  function CapabilityValues(f: Facts): seq<string> {
    Unique(Take(f.customerCandidates, 2) + Take(f.productGroups, 3) + Take(f.requestTypes, 3)
      + Take(f.projectNumbers, 2))
  }

  function SemanticText(f: Facts, missing: seq<string>): string {
    var parts := Take(f.requestedActions, 3) + Take(f.requestTypes, 3) + Take(f.productNames, 3)
      + Take(f.productGroups, 2)
                 + Take(f.urgencySignals, 2) + Take(missing, 3);
    Join(Unique(Map(Strip, Filter((p: string) => Strip(p) != "", parts))), " | ")
  }

  function AllQueries(f: Facts, cycle: nat, missing: seq<string>): seq<Query> {
    var semantic := SemanticText(f, missing);
    ExactQueries(f) + Map(RuleQuery, Take(f.requestTypes, 3)) + Map(CapabilityQuery, CapabilityValues(f))
    + (if semantic != "" then [Query("similar_confirmed_cases", SimilarCase, semantic, if cycle == 1 then 8 else 12)]
      else [])
    + (if cycle > 1 && missing != [] then
         [Query("broaden_unresolved_context", SimilarCase, Join(missing + Take(f.requestedActions, 2), " | "), 12)]
           else [])
  }

  /**
   * The queries of a cycle, cut to the first twelve; with nothing reported missing the planner lists the gaps itself.
   */
  function Plan(f: Facts, cycle: nat, missing: seq<string>): (r: seq<Query>)
    ensures |r| <= 12
  {
    Take(AllQueries(f, cycle, if missing == [] then InitialMissing(f) else missing), 12)
  }

  // ----- evaluation -----

  predicate HasAssignee(hits: seq<Hit>) { exists i :: 0 <= i < |hits| && hits[i].assignee != "" }
  predicate HasRetriever(hits: seq<Hit>, r: Retriever) { exists i :: 0 <= i < |hits| && hits[i].retriever == r }
  predicate HasStrong(hits: seq<Hit>) { exists i :: 0 <= i < |hits| && hits[i].score >= 0.65 }

  function Missing(f: Facts, hits: seq<Hit>): seq<string> {
    (if HasAssignee(hits) then [] else ["assignee_context"])
    + (if HasRetriever(hits, RoutingRule) || f.requestTypes != [] || f.requestedActions != [] then []
      else ["business_type_context"])
    + (if HasRetriever(hits, Exact) || f.customerName != "" || f.customerCandidates != [] || f.productNames != []
          || f.productGroups != [] || f.partNumbers != [] then [] else ["customer_or_product_context"])
    + (if HasStrong(hits) then [] else ["strong_retrieval_evidence"])
  }

  function Sufficient(f: Facts, hits: seq<Hit>): bool { Missing(f, hits) == [] && HasAssignee(hits) && HasStrong(hits) }

  /** More hits never make a sufficient context insufficient. */
  ghost predicate Includes(more: seq<Hit>, less: seq<Hit>) { forall i :: 0 <= i < |less| ==> less[i] in more }

  lemma SufficientMonotone(f: Facts, less: seq<Hit>, more: seq<Hit>)
    requires Includes(more, less)
    ensures Sufficient(f, less) ==> Sufficient(f, more)
    ensures Sufficient(f, less) <==> Missing(f, less) == []
  {
    HasMonotone(less, more);
    hide HasAssignee, HasRetriever, HasStrong;
  }

  lemma HasMonotone(less: seq<Hit>, more: seq<Hit>)
    requires Includes(more, less)
    ensures HasAssignee(less) ==> HasAssignee(more)
    ensures HasStrong(less) ==> HasStrong(more)
    ensures forall r :: HasRetriever(less, r) ==> HasRetriever(more, r)
  {
  }

  // ----- selection -----

  function SourceText(h: Hit): string { if h.sourceId.Some? then h.sourceId.value else "None" }

  function KeyOf(h: Hit): (string, string, string) { (h.sourceType, SourceText(h), h.title) }

  /** The position of a key among hits with distinct keys, or their number. */
  function Find(kept: seq<Hit>, key: (string, string, string)): (r: nat)
    ensures r <= |kept| && (r < |kept| ==> KeyOf(kept[r]) == key)
    ensures forall i :: 0 <= i < r ==> KeyOf(kept[i]) != key
  {
    if kept == [] then 0 else if KeyOf(kept[0]) == key then 0 else 1 + Find(kept[1..], key)
  }

  /** One hit per key, in order of first appearance, replaced only by a strictly better one. */
  function BestPerKey(hits: seq<Hit>): seq<Hit> {
    if hits == [] then [] else
    var kept, hit := BestPerKey(hits[..|hits| - 1]), hits[|hits| - 1];
    var i := Find(kept, KeyOf(hit));
    if i == |kept| then kept + [hit]
    else if hit.score > kept[i].score then kept[i := hit]
    else kept
  }

  function RankScore(h: Hit): real { if h.rerank.Some? then h.rerank.value else h.score }

  function Select(hits: seq<Hit>, limit: nat): seq<Hit> { Take(SortBy(RankScore, BestPerKey(hits)), limit) }

  // ----- the loop -----

  function RunQueries(search: Search, cycle: nat, queries: seq<Query>): seq<Hit> {
    if queries == [] then [] else
    var found := search(cycle, queries[|queries| - 1]);
    RunQueries(search, cycle, queries[..|queries| - 1]) + if found.Some? then found.value else []
  }

  /** The cycles from number `n` on, given everything found so far and what was reported missing. */
  function Cycles(f: Facts, search: Search, limit: nat, n: nat, hits: seq<Hit>, missing: seq<string>): seq<Cycle>
    requires 1 <= n
    decreases limit + 1 - n
  {
    if n > limit then [] else
    var queries := Plan(f, n, missing);
    var found := RunQueries(search, n, queries);
    var all := hits + found;
    [Cycle(n, queries, found, Sufficient(f, all), Missing(f, all))]
    + if Sufficient(f, all) then [] else Cycles(f, search, limit, n + 1, all, Missing(f, all))
  }

  function HitsOf(cycles: seq<Cycle>): seq<Hit> {
    if cycles == [] then [] else HitsOf(cycles[..|cycles| - 1]) + cycles[|cycles| - 1].hits
  }

  function MaxCycles(configured: int): (r: nat)
    ensures 1 <= r <= 3
  {
    if configured < 1 then 1 else if configured > 3 then 3 else configured
  }

  function PromptLimit(configured: int): (r: nat)
    ensures 1 <= r
  {
    if configured < 1 then 1 else configured
  }

  function Retrieve(f: Facts, search: Search, maxCycles: int, promptLimit: int): Context {
    var cycles := Cycles(f, search, MaxCycles(maxCycles), 1, [], []);
    var selected := Select(HitsOf(cycles), PromptLimit(promptLimit));
    Context(cycles, selected, Sufficient(f, selected), Missing(f, selected))
  }

  class AgenticRetrievalService {
    const maxCycles: nat
    const promptHitLimit: nat

    constructor (maxCycles: int, promptHitLimit: int)
      ensures this.maxCycles == MaxCycles(maxCycles) && this.promptHitLimit == PromptLimit(promptHitLimit)
    {
      this.maxCycles := MaxCycles(maxCycles);
      this.promptHitLimit := PromptLimit(promptHitLimit);
    }

    method SelectHits(hits: seq<Hit>) returns (selected: seq<Hit>)
      ensures selected == Select(hits, promptHitLimit)
    {
      var deduped: seq<Hit> := [];
      for i := 0 to |hits|
        invariant deduped == BestPerKey(hits[..i])
      {
        var hit := hits[i];
        assert hits[..i + 1][..i] == hits[..i];
        var at := Find(deduped, KeyOf(hit));
        if at == |deduped| {
          deduped := deduped + [hit];
        } else if hit.score > deduped[at].score {
          deduped := deduped[at := hit];
        }
      }
      assert hits[..|hits|] == hits;
      selected := Take(SortBy(RankScore, deduped), promptHitLimit);
    }

    method RunPlan(search: Search, cycle: nat, queries: seq<Query>) returns (cycleHits: seq<Hit>)
      ensures cycleHits == RunQueries(search, cycle, queries)
    {
      cycleHits := [];
      for i := 0 to |queries|
        invariant cycleHits == RunQueries(search, cycle, queries[..i])
      {
        assert queries[..i + 1][..i] == queries[..i];
        var hits := search(cycle, queries[i]);
        cycleHits := cycleHits + if hits.Some? then hits.value else [];
      }
      assert queries[..|queries|] == queries;
    }

    method Execute(f: Facts, search: Search) returns (context: Context)
      ensures context.cycles == Cycles(f, search, maxCycles, 1, [], [])
      ensures context.selected == Select(HitsOf(context.cycles), promptHitLimit)
      ensures context.sufficient == Sufficient(f, context.selected) && context.missing == Missing(f, context.selected)
    {
      hide Plan, Sufficient, Missing;
      var cycles: seq<Cycle> := [];
      var allHits: seq<Hit> := [];
      var missing: seq<string> := [];
      var number := 1;
      while number <= maxCycles
        invariant 1 <= number
        invariant allHits == HitsOf(cycles)
        invariant Cycles(f, search, maxCycles, 1, [], [])
          == cycles + Cycles(f, search, maxCycles, number, allHits, missing)
      {
        var queries := Plan(f, number, missing);
        var cycleHits := RunPlan(search, number, queries);
        var before := allHits;
        allHits := allHits + cycleHits;
        var sufficient := Sufficient(f, allHits);
        var reported := missing;
        missing := Missing(f, allHits);
        var cycle := Cycle(number, queries, cycleHits, sufficient, missing);
        ghost var rest := if sufficient then [] else Cycles(f, search, maxCycles, number + 1, allHits, missing);
        ConcatAssociates(cycles, [cycle], rest);
        AppendCycle(cycles, cycle);
        assert Cycles(f, search, maxCycles, number, before, reported) == [cycle] + rest;
        cycles := cycles + [cycle];
        if sufficient {
          assert cycles + rest == cycles;
          break;
        }
        number := number + 1;
      }
      assert cycles == Cycles(f, search, maxCycles, 1, [], []) by {
        assert cycles + [] == cycles;
      }
      var selected := SelectHits(allHits);
      context := Context(cycles, selected, Sufficient(f, selected), Missing(f, selected));
    }
  }

  lemma AppendCycle(cycles: seq<Cycle>, c: Cycle)
    ensures HitsOf(cycles + [c]) == HitsOf(cycles) + c.hits
  {
    assert (cycles + [c])[..|cycles|] == cycles;
  }
}
