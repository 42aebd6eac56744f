/** Deterministic routing: weighted scores, a stable ranking, and the rules that send a mail to review. */
module RoutingPolicy {
  import opened Text
  import opened Bags
  import opened MailSchemas
  import opened Rounding

  datatype Capability = Capability(kind: string, value: string)
  datatype User = User(id: string, active: bool, capabilities: seq<Capability>)
  datatype Config = Config(threshold: real, margin: real, minimumConfidence: real)

  const DEFAULTS := Config(0.82, 0.15, 0.78)

  datatype Components = Components(
    customer: real, product: real, businessType: real, project: real, history: real, similarity: real,
      availability: real)

  datatype Candidate = Candidate(userId: string, total: real, rank: nat, components: Components)

  datatype Decision = Decision(
    candidates: seq<Candidate>, selected: Option<string>, autoAssign: bool, confidence: real,
      reviewReasons: seq<string>)

  // ----- scoring one user -----

  function NormalizedValues(values: seq<string>): set<string> {
    set v | v in values && Strip(v) != "" :: Normalize(v)
  }

  function Match(capabilities: seq<Capability>, kind: string, values: seq<string>): real {
    if exists i :: 0 <= i < |capabilities| && capabilities[i].kind == kind
         && Normalize(capabilities[i].value) in NormalizedValues(values)
    then 1.0 else 0.0
  }

  function MaxReal(a: real, b: real): real { if a >= b then a else b }

  /** The strongest score among a user's hits, of the similar cases or of all the others. */
  function Evidence(hits: seq<Hit>, user: string, similar: bool): real {
    if hits == [] then 0.0 else
    var before, hit := Evidence(hits[..|hits| - 1], user, similar), hits[|hits| - 1];
    if hit.assignee == user && (hit.retriever == SimilarCase) == similar then MaxReal(before, hit.score) else before
  }

  function ComponentsOf(user: User, facts: Facts, c: Classification, hits: seq<Hit>): Components {
    Components(
      Match(user.capabilities, "customer", [facts.customerName] + facts.customerCandidates),
      Match(user.capabilities, "product", facts.productNames + facts.productGroups + facts.partNumbers),
      Match(user.capabilities, "business_type", [c.primaryType] + c.secondaryTypes),
      Match(user.capabilities, "project", facts.projectNumbers + facts.vesselNames),
      Evidence(hits, user.id, false), Evidence(hits, user.id, true),
      if user.active then 1.0 else 0.0)
  }

  function Weighted(c: Components): real {
    0.30 * c.customer + 0.20 * c.product + 0.20 * c.businessType + 0.10 * c.project
    + 0.10 * c.history + 0.05 * c.similarity + 0.05 * c.availability
  }

  function Total(user: User, facts: Facts, c: Classification, hits: seq<Hit>): real {
    Round4(Weighted(ComponentsOf(user, facts, c, hits)))
  }

  function CandidateOf(user: User, facts: Facts, c: Classification, hits: seq<Hit>): Candidate {
    Candidate(user.id, Total(user, facts, c, hits), 1, ComponentsOf(user, facts, c, hits))
  }

  function Candidates(users: seq<User>, facts: Facts, c: Classification, hits: seq<Hit>): (r: seq<Candidate>)
    ensures |r| == |users|
  {
    seq(|users|, i requires 0 <= i < |users| => CandidateOf(users[i], facts, c, hits))
  }

  // ----- ranking -----

  function TotalOf(c: Candidate): real { c.total }

  function Sort(cs: seq<Candidate>): seq<Candidate> { SortBy(TotalOf, cs) }

  function Ranked(cs: seq<Candidate>): (r: seq<Candidate>)
    ensures |r| == |cs|
  {
    seq(|cs|, i requires 0 <= i < |cs| => cs[i].(rank := i + 1))
  }

  // ----- deciding -----

  /** `if condition: reasons.append(reason)` */
  function Flag(reasons: seq<string>, condition: bool, reason: string): seq<string> {
    if condition then reasons + [reason] else reasons
  }

  function ScoreReasons(cfg: Config, totals: seq<real>): seq<string> {
    Flag(Flag(Flag([], totals == [], "no_active_candidates"),
      totals != [] && totals[0] < cfg.threshold, "top_score_below_threshold"),
      |totals| > 1 && totals[0] - totals[1] < cfg.margin, "candidate_margin_too_small")
  }

  predicate EvidenceMissing(facts: Facts) {
    && facts.customerName == "" && facts.customerCandidates == [] && facts.productNames == []
      && facts.productGroups == []
    && facts.projectNumbers == []
  }

  function ReviewReasons(cfg: Config, facts: Facts, c: Classification, totals: seq<real>): seq<string> {
    Flag(Flag(Flag(Flag(ScoreReasons(cfg, totals),
      c.confidence < cfg.minimumConfidence, "classification_confidence_too_low"),
      c.reviewRequired, "classification_review_required"),
      facts.contradictions != [], "fact_contradictions_present"),
      EvidenceMissing(facts), "required_routing_evidence_missing")
  }

  function Totals(cs: seq<Candidate>): (r: seq<real>)
    ensures |r| == |cs| && forall i :: 0 <= i < |r| ==> r[i] == cs[i].total
  {
    seq(|cs|, i requires 0 <= i < |cs| => cs[i].total)
  }

  function Decide(cfg: Config, facts: Facts, c: Classification, ranked: seq<Candidate>): Decision {
    var reasons := ReviewReasons(cfg, facts, c, Totals(ranked));
    Decision(
      if |ranked| <= 5 then ranked else ranked[..5],
      if ranked != [] && reasons == [] then Some(ranked[0].userId) else None,
      reasons == [],
      if ranked != [] then ranked[0].total else 0.0,
      reasons)
  }

  function Policy(cfg: Config, users: seq<User>, facts: Facts, c: Classification, hits: seq<Hit>): Decision {
    Decide(cfg, facts, c, Ranked(Sort(Candidates(users, facts, c, hits))))
  }

  // ----- the program -----

  method RetrievalEvidence(hits: seq<Hit>) returns (buckets: map<string, (real, real)>)
    ensures forall user :: user in buckets
              ==> buckets[user] == (Evidence(hits, user, false), Evidence(hits, user, true))
    ensures forall user :: user != "" && user !in buckets
              ==> Evidence(hits, user, false) == Evidence(hits, user, true) == 0.0
    ensures "" !in buckets
  {
    buckets := map[];
    for i := 0 to |hits|
      invariant "" !in buckets
      invariant forall user :: user in buckets
                  ==> buckets[user] == (Evidence(hits[..i], user, false), Evidence(hits[..i], user, true))
      invariant forall user :: user != "" && user !in buckets
                  ==> Evidence(hits[..i], user, false) == Evidence(hits[..i], user, true) == 0.0
    {
      var hit := hits[i];
      assert hits[..i + 1][..i] == hits[..i];
      if hit.assignee == "" {
        continue;
      }
      var bucket := if hit.assignee in buckets then buckets[hit.assignee] else (0.0, 0.0);
      bucket := if hit.retriever == SimilarCase then (bucket.0, MaxReal(bucket.1, hit.score))
        else (MaxReal(bucket.0, hit.score), bucket.1);
      buckets := buckets[hit.assignee := bucket];
    }
    assert hits[..|hits|] == hits;
  }

  /** The candidate loop, one candidate per user in the order given. */
  method ScoreUsers(users: seq<User>, facts: Facts, c: Classification, hits: seq<Hit>)
      returns (candidates: seq<Candidate>)
    requires forall i :: 0 <= i < |users| ==> users[i].id != ""
    ensures candidates == Candidates(users, facts, c, hits)
  {
    hide Evidence, Match, Round4, Weighted;
    var evidence := RetrievalEvidence(hits);
    candidates := [];
    for i := 0 to |users|
      invariant candidates == Candidates(users[..i], facts, c, hits)
    {
      var user := users[i];
      var bucket := if user.id in evidence then evidence[user.id] else (0.0, 0.0);
      var components := Components(
        Match(user.capabilities, "customer", [facts.customerName] + facts.customerCandidates),
        Match(user.capabilities, "product", facts.productNames + facts.productGroups + facts.partNumbers),
        Match(user.capabilities, "business_type", [c.primaryType] + c.secondaryTypes),
        Match(user.capabilities, "project", facts.projectNumbers + facts.vesselNames),
        bucket.0, bucket.1,
        if user.active then 1.0 else 0.0);
      var total := Round4(Weighted(components));
      assert Candidate(user.id, total, 1, components) == CandidateOf(users[i], facts, c, hits);
      candidates := candidates + [Candidate(user.id, total, 1, components)];
    }
    assert users[..|users|] == users;
  }

  method Review(cfg: Config, facts: Facts, c: Classification, candidates: seq<Candidate>) returns (reasons: seq<string>)
    ensures reasons == ReviewReasons(cfg, facts, c, Totals(candidates))
  {
    hide EvidenceMissing;
    reasons := [];
    if candidates == [] {
      reasons := reasons + ["no_active_candidates"];
    } else if candidates[0].total < cfg.threshold {
      reasons := reasons + ["top_score_below_threshold"];
    }
    if |candidates| > 1 && candidates[0].total - candidates[1].total < cfg.margin {
      reasons := reasons + ["candidate_margin_too_small"];
    }
    assert reasons == ScoreReasons(cfg, Totals(candidates));
    hide ScoreReasons;
    if c.confidence < cfg.minimumConfidence {
      reasons := reasons + ["classification_confidence_too_low"];
    }
    if c.reviewRequired {
      reasons := reasons + ["classification_review_required"];
    }
    if facts.contradictions != [] {
      reasons := reasons + ["fact_contradictions_present"];
    }
    if EvidenceMissing(facts) {
      reasons := reasons + ["required_routing_evidence_missing"];
    }
  }

  method Score(cfg: Config, users: seq<User>, facts: Facts, c: Classification, hits: seq<Hit>)
      returns (decision: Decision)
    requires forall i :: 0 <= i < |users| ==> users[i].id != ""
    ensures decision == Policy(cfg, users, facts, c, hits)
  {
    hide Candidates, Sort, ReviewReasons;
    var scored := ScoreUsers(users, facts, c, hits);
    var candidates := Ranked(Sort(scored));
    var reasons := Review(cfg, facts, c, candidates);
    var selected := None;
    if candidates != [] && reasons == [] {
      selected := Some(candidates[0].userId);
    }
    decision := Decision(
      if |candidates| <= 5 then candidates else candidates[..5],
      selected,
      reasons == [],
      if candidates != [] then candidates[0].total else 0.0,
      reasons);
  }
}
