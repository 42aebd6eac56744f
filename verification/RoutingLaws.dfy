/**
 * What an automatic assignment means: order independence, the lead of the selected user, and the arithmetic of
 * thresholds.
 */
module RoutingLaws {
  import opened Bags
  import opened MailSchemas
  import opened Rounding
  import opened RoutingPolicy

  // ----- the ranking is a descending permutation -----

  lemma RankingSorts(cs: seq<Candidate>)
    ensures multiset(Sort(cs)) == multiset(cs) && |Sort(cs)| == |cs|
    ensures forall i, j :: 0 <= i <= j < |cs| ==> Sort(cs)[i].total >= Sort(cs)[j].total
  {
    SortSorts(TotalOf, cs);
    hide SortBy;
    forall i, j | 0 <= i <= j < |cs| ensures Sort(cs)[i].total >= Sort(cs)[j].total {
      assert TotalOf(Sort(cs)[i]) >= TotalOf(Sort(cs)[j]);
    }
  }

  /** The candidate ranked first, and everyone else ranked behind it. */
  lemma Top(cs: seq<Candidate>) returns (i: nat)
    requires cs != []
    ensures i < |cs| && |Sort(cs)| == |cs| && cs[i] == Sort(cs)[0]
    ensures forall j :: 0 <= j < |cs| && j != i ==> cs[j] in Sort(cs)[1..]
    ensures |cs| > 1 ==> exists j :: 0 <= j < |cs| && j != i && cs[j] == Sort(cs)[1]
  {
    hide Sort;
    RankingSorts(cs);
    i := Split(Sort(cs), cs);
  }

  // ----- no review reason -----

  /** The conditions that do not concern scores. */
  ghost predicate Clear(cfg: Config, facts: Facts, c: Classification) {
    && c.confidence >= cfg.minimumConfidence && !c.reviewRequired && facts.contradictions == []
      && !EvidenceMissing(facts)
  }

  lemma NoReasons(cfg: Config, facts: Facts, c: Classification, totals: seq<real>)
    ensures ReviewReasons(cfg, facts, c, totals) == [] <==>
      Clear(cfg, facts, c) && totals != [] && totals[0] >= cfg.threshold
        && (|totals| > 1 ==> totals[0] - totals[1] >= cfg.margin)
  {
  }

  /** User `i` reaches the threshold and is ahead of every other user, not just of the second, by the margin. */
  ghost predicate Leads(cfg: Config, users: seq<User>, facts: Facts, c: Classification, hits: seq<Hit>, i: nat)
    requires i < |users|
  {
    && Total(users[i], facts, c, hits) >= cfg.threshold
    && forall j :: 0 <= j < |users| && j != i
         ==> Total(users[i], facts, c, hits) - Total(users[j], facts, c, hits) >= cfg.margin
  }

  /** An automatic assignment selects a user who leads, with that user's score as its confidence. */
  lemma AutoAssignLeads(cfg: Config, users: seq<User>, facts: Facts, c: Classification, hits: seq<Hit>) returns (i: nat)
    requires Policy(cfg, users, facts, c, hits).autoAssign
    ensures Clear(cfg, facts, c) && i < |users| && Leads(cfg, users, facts, c, hits, i)
    ensures Policy(cfg, users, facts, c, hits).selected == Some(users[i].id)
    ensures Policy(cfg, users, facts, c, hits).confidence == Total(users[i], facts, c, hits)
  {
    var cs := Candidates(users, facts, c, hits);
    hide Total, Sort, ReviewReasons, ComponentsOf;
    NoReasons(cfg, facts, c, Totals(Ranked(Sort(cs))));
    RankingSorts(cs);
    i := Top(cs);
    var s := Sort(cs);
    forall j | 0 <= j < |users| && j != i
      ensures Total(users[i], facts, c, hits) - Total(users[j], facts, c, hits) >= cfg.margin
    {
      assert cs[j] in s[1..];
      var k :| 0 <= k < |s[1..]| && s[1..][k] == cs[j];
      assert s[k + 1] == cs[j] && s[1].total >= s[k + 1].total;
    }
  }

  /** A candidate ahead of all others is ranked first, and ahead of the second by as much. */
  lemma LeaderOnTop(cs: seq<Candidate>, i: nat, margin: real)
    requires i < |cs| && margin > 0.0
    requires forall j :: 0 <= j < |cs| && j != i ==> cs[i].total - cs[j].total >= margin
    ensures |Sort(cs)| == |cs| && Sort(cs)[0] == cs[i]
    ensures |cs| > 1 ==> Sort(cs)[0].total - Sort(cs)[1].total >= margin
  {
    hide Sort;
    RankingSorts(cs);
    var t := Top(cs);
    var s := Sort(cs);
    assert forall k :: 0 < k < |s| ==> s[k].total <= s[0].total;
    if |cs| > 1 {
      var j :| 0 <= j < |cs| && j != t && cs[j] == s[1];
      assert cs[i].total - cs[j].total >= margin || j == i;
    }
  }

  /** With a positive margin, whoever leads is assigned automatically unless a condition that ignores scores fails. */
  lemma LeaderIsAssigned(cfg: Config, users: seq<User>, facts: Facts, c: Classification, hits: seq<Hit>, i: nat)
    requires cfg.margin > 0.0 && i < |users| && Leads(cfg, users, facts, c, hits, i) && Clear(cfg, facts, c)
    ensures Policy(cfg, users, facts, c, hits).autoAssign
    ensures Policy(cfg, users, facts, c, hits).selected == Some(users[i].id)
  {
    var cs := Candidates(users, facts, c, hits);
    hide Total, Sort, ReviewReasons, ComponentsOf, Clear;
    forall j | 0 <= j < |cs| && j != i ensures cs[i].total - cs[j].total >= cfg.margin {
      assert cs[j].total == Total(users[j], facts, c, hits);
    }
    LeaderOnTop(cs, i, cfg.margin);
    NoReasons(cfg, facts, c, Totals(Ranked(Sort(cs))));
  }

  // ----- order independence -----

  lemma SameMap(users: seq<User>, facts: Facts, c: Classification, hits: seq<Hit>)
    ensures Candidates(users, facts, c, hits) == Map((u: User) => CandidateOf(u, facts, c, hits), users)
  {
  }

  /** The ranked scores depend on the users as a bag only. */
  lemma RankedTotals(a: seq<User>, b: seq<User>, facts: Facts, c: Classification, hits: seq<Hit>)
    requires multiset(a) == multiset(b)
    ensures Totals(Sort(Candidates(a, facts, c, hits))) == Totals(Sort(Candidates(b, facts, c, hits)))
  {
    hide Sort, Candidates;
    var ca, cb := Candidates(a, facts, c, hits), Candidates(b, facts, c, hits);
    var score := (u: User) => CandidateOf(u, facts, c, hits);
    var total := (x: Candidate) => x.total;
    MapBag(score, a, b);
    SameMap(a, facts, c, hits);
    SameMap(b, facts, c, hits);
    RankingSorts(ca);
    RankingSorts(cb);
    MapBag(total, Sort(ca), Sort(cb));
    assert Totals(Sort(ca)) == Map(total, Sort(ca)) && Totals(Sort(cb)) == Map(total, Sort(cb));
    SortedUnique(Totals(Sort(ca)), Totals(Sort(cb)));
  }

  /**
   * Permuting the users leaves the decision, its confidence and its review reasons unchanged and, with a positive
   * margin, the selected user as well.
   */
  lemma OrderIndependent(cfg: Config, a: seq<User>, b: seq<User>, facts: Facts, c: Classification, hits: seq<Hit>)
    requires multiset(a) == multiset(b)
    ensures var x, y := Policy(cfg, a, facts, c, hits), Policy(cfg, b, facts, c, hits);
      && x.autoAssign == y.autoAssign && x.confidence == y.confidence && x.reviewReasons == y.reviewReasons
      && (cfg.margin > 0.0 ==> x.selected == y.selected)
  {
    RankedTotals(a, b, facts, c, hits);
    var sa, sb := Sort(Candidates(a, facts, c, hits)), Sort(Candidates(b, facts, c, hits));
    hide Sort, Candidates, ReviewReasons, Total;
    assert Totals(Ranked(sa)) == Totals(sa) && Totals(Ranked(sb)) == Totals(sb);
    if cfg.margin > 0.0 && Policy(cfg, a, facts, c, hits).autoAssign {
      var i := AutoAssignLeads(cfg, a, facts, c, hits);
      var j := AutoAssignLeads(cfg, b, facts, c, hits);
      assert b[j] in multiset(a);
      var k :| 0 <= k < |a| && a[k] == b[j];
      assert k == i;
    }
  }

  // ----- more evidence -----

  lemma {:induction false} MoreEvidence(hits: seq<Hit>, extra: seq<Hit>, user: string, similar: bool)
    ensures Evidence(hits + extra, user, similar) >= Evidence(hits, user, similar)
    ensures (forall i :: 0 <= i < |extra| ==> extra[i].assignee != user)
      ==> Evidence(hits + extra, user, similar) == Evidence(hits, user, similar)
  {
    if extra == [] {
      assert hits + extra == hits;
    } else {
      var n := |extra| - 1;
      assert (hits + extra)[..|hits + extra| - 1] == hits + extra[..n];
      MoreEvidence(hits, extra[..n], user, similar);
    }
  }

  /** A user's score grows with the user's evidence. */
  lemma TotalGrows(u: User, facts: Facts, c: Classification, hits: seq<Hit>, extra: seq<Hit>)
    ensures Total(u, facts, c, hits + extra) >= Total(u, facts, c, hits)
    ensures (forall i :: 0 <= i < |extra| ==> extra[i].assignee != u.id)
      ==> Total(u, facts, c, hits + extra) == Total(u, facts, c, hits)
  {
    MoreEvidence(hits, extra, u.id, false);
    MoreEvidence(hits, extra, u.id, true);
    hide Evidence, Match, Round4;
    RoundMonotone(Weighted(ComponentsOf(u, facts, c, hits)), Weighted(ComponentsOf(u, facts, c, hits + extra)));
  }

  /** More retrieval evidence for the selected user never turns an automatic assignment into a review. */
  lemma MoreEvidenceKeepsAssignment(cfg: Config, users: seq<User>, facts: Facts, c: Classification, hits: seq<Hit>,
      extra: seq<Hit>)
    requires cfg.margin > 0.0 && Policy(cfg, users, facts, c, hits).autoAssign
    requires forall i, j :: 0 <= i < j < |users| ==> users[i].id != users[j].id
    requires forall k :: 0 <= k < |extra| ==> Policy(cfg, users, facts, c, hits).selected == Some(extra[k].assignee)
    ensures Policy(cfg, users, facts, c, hits + extra).autoAssign
    ensures Policy(cfg, users, facts, c, hits + extra).selected == Policy(cfg, users, facts, c, hits).selected
  {
    hide Policy, Total, EvidenceMissing;
    var i := AutoAssignLeads(cfg, users, facts, c, hits);
    TotalGrows(users[i], facts, c, hits, extra);
    forall j | 0 <= j < |users| && j != i
      ensures Total(users[i], facts, c, hits + extra) - Total(users[j], facts, c, hits + extra) >= cfg.margin
    {
      TotalGrows(users[j], facts, c, hits, extra);
    }
    LeaderIsAssigned(cfg, users, facts, c, hits + extra, i);
  }

  // ----- the arithmetic of thresholds -----

  ghost predicate UnitComponents(x: Components) {
    && 0.0 <= x.customer <= 1.0 && 0.0 <= x.product <= 1.0 && 0.0 <= x.businessType <= 1.0 && 0.0 <= x.project <= 1.0
    && 0.0 <= x.history <= 1.0 && 0.0 <= x.similarity <= 1.0 && 0.0 <= x.availability <= 1.0
  }

  lemma {:induction false} EvidenceInUnit(hits: seq<Hit>, user: string, similar: bool)
    requires forall i :: 0 <= i < |hits| ==> hits[i].Valid()
    ensures 0.0 <= Evidence(hits, user, similar) <= 1.0
  {
    if hits != [] {
      assert hits[|hits| - 1].Valid();
      EvidenceInUnit(hits[..|hits| - 1], user, similar);
    }
  }

  lemma ComponentsInUnit(u: User, facts: Facts, c: Classification, hits: seq<Hit>)
    requires forall i :: 0 <= i < |hits| ==> hits[i].Valid()
    ensures UnitComponents(ComponentsOf(u, facts, c, hits))
  {
    EvidenceInUnit(hits, u.id, false);
    EvidenceInUnit(hits, u.id, true);
    hide Evidence, Match;
    MatchIsBit(u.capabilities, "customer", [facts.customerName] + facts.customerCandidates);
    MatchIsBit(u.capabilities, "product", facts.productNames + facts.productGroups + facts.partNumbers);
    MatchIsBit(u.capabilities, "business_type", [c.primaryType] + c.secondaryTypes);
    MatchIsBit(u.capabilities, "project", facts.projectNumbers + facts.vesselNames);
  }

  lemma MatchIsBit(capabilities: seq<Capability>, kind: string, values: seq<string>)
    ensures Match(capabilities, kind, values) == 0.0 || Match(capabilities, kind, values) == 1.0
  {
  }

  /** Scores stay in the unit interval, so a candidate row always satisfies its schema. */
  lemma TotalInUnit(u: User, facts: Facts, c: Classification, hits: seq<Hit>)
    requires forall i :: 0 <= i < |hits| ==> hits[i].Valid()
    ensures 0.0 <= Total(u, facts, c, hits) <= 1.0
  {
    ComponentsInUnit(u, facts, c, hits);
    hide ComponentsOf, Round4;
    RoundMonotone(0.0, Weighted(ComponentsOf(u, facts, c, hits)));
    RoundMonotone(Weighted(ComponentsOf(u, facts, c, hits)), 1.0);
    RoundExact(0);
    RoundExact(10000);
  }

  /** The weight of a component, by position in the score. */
  function Part(x: Components, k: nat): (real, real)
    requires k < 7
  {
    match k
    case 0 => (0.30, x.customer)
    case 1 => (0.20, x.product)
    case 2 => (0.20, x.businessType)
    case 3 => (0.10, x.project)
    case 4 => (0.10, x.history)
    case 5 => (0.05, x.similarity)
    case _ => (0.05, x.availability)
  }

  /** A component whose weight exceeds what the threshold leaves over, and the rounding error, cannot be zero. */
  lemma HeavyComponentNeeded(x: Components, threshold: real, k: nat)
    requires UnitComponents(x) && k < 7 && Round4(Weighted(x)) >= threshold
    requires Part(x, k).0 > 1.0 - threshold + 0.00005
    ensures Part(x, k).1 > 0.0
  {
    RoundError(Weighted(x));
    hide Round4;
  }

  /** Conversely a component no heavier than that can be missing: everything else at its best reaches the threshold. */
  lemma LightComponentSpared(threshold: real, k: nat)
    requires k < 7 && threshold <= 1.0
    requires Part(Components(0.0, 0.0, 0.0, 0.0, 0.0, 0.0, 0.0), k).0 <= 1.0 - threshold
    ensures exists x :: UnitComponents(x) && Part(x, k).1 == 0.0 && Round4(Weighted(x)) >= threshold
  {
    var x := Components(
      if k == 0 then 0.0 else 1.0, if k == 1 then 0.0 else 1.0, if k == 2 then 0.0 else 1.0, if k == 3 then 0.0
        else 1.0,
      if k == 4 then 0.0 else 1.0, if k == 5 then 0.0 else 1.0, if k == 6 then 0.0 else 1.0);
    RoundExact(if k == 0 then 7000 else if k < 3 then 8000 else if k < 5 then 9000 else 9500);
    assert Part(x, k).1 == 0.0 && Round4(Weighted(x)) >= threshold;
  }

  /** With the default settings an automatically assigned user matches customer, product and business type together. */
  lemma DefaultsNeedThreeMatches(users: seq<User>, facts: Facts, c: Classification, hits: seq<Hit>) returns (i: nat)
    requires forall k :: 0 <= k < |hits| ==> hits[k].Valid()
    requires Policy(DEFAULTS, users, facts, c, hits).autoAssign
    ensures i < |users| && Policy(DEFAULTS, users, facts, c, hits).selected == Some(users[i].id)
    ensures var x := ComponentsOf(users[i], facts, c, hits);
      x.customer == 1.0 && x.product == 1.0 && x.businessType == 1.0
  {
    i := AutoAssignLeads(DEFAULTS, users, facts, c, hits);
    var u := users[i];
    ComponentsInUnit(u, facts, c, hits);
    hide Policy, Match, Evidence, Round4;
    var x := ComponentsOf(u, facts, c, hits);
    HeavyComponentNeeded(x, 0.82, 0);
    HeavyComponentNeeded(x, 0.82, 1);
    HeavyComponentNeeded(x, 0.82, 2);
    MatchIsBit(u.capabilities, "customer", [facts.customerName] + facts.customerCandidates);
    MatchIsBit(u.capabilities, "product", facts.productNames + facts.productGroups + facts.partNumbers);
    MatchIsBit(u.capabilities, "business_type", [c.primaryType] + c.secondaryTypes);
  }

  /** Whatever retrieval returns, it moves a score by at most 0.15 and the rounding error of both scores. */
  lemma RetrievalMovesLittle(u: User, facts: Facts, c: Classification, a: seq<Hit>, b: seq<Hit>)
    requires forall k :: 0 <= k < |a| ==> a[k].Valid()
    requires forall k :: 0 <= k < |b| ==> b[k].Valid()
    ensures Total(u, facts, c, a) - Total(u, facts, c, b) <= 0.1501
  {
    ComponentsInUnit(u, facts, c, a);
    ComponentsInUnit(u, facts, c, b);
    RoundError(Weighted(ComponentsOf(u, facts, c, a)));
    RoundError(Weighted(ComponentsOf(u, facts, c, b)));
    hide Round4, Match, Evidence;
  }
}
