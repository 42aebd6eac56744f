/** The gate between a model's answer and an automatic assignment, over single runs and over any resumption. */
module DecisionGate {
  import opened MailSchemas
  import opened RoutingPolicy
  import opened RoutingLaws
  import opened DecisionAgent
  import opened Retrieval
  import opened RetrievalLaws
  import opened DecisionNodes

  /** The model answered, and its answer passes without review. */
  ghost predicate Passes(answer: Option<Output>, facts: Facts) {
    && answer.Some? && !answer.value.reviewRequired && answer.value.confidence >= 0.78
    && facts.contradictions == [] && answer.value.unsupportedClaims == []
    && (|GroundedTypes(facts.requestTypes)| == 1 ==> answer.value.primaryType == GroundedTypes(facts.requestTypes)[0])
  }

  lemma OutputReview(facts: Facts, blocked: bool, i: Inputs)
    ensures var o := DecisionOutput(facts, blocked, i);
      && (!o.reviewRequired <==> !blocked && Passes(i.answer, facts))
      && (!o.reviewRequired ==> o == Decided(i.answer.value, facts, i.signals)
                                && o.confidence == i.answer.value.confidence)
  {
    if i.answer.Some? { ReviewExactly(i.answer.value, facts, i.signals); }
    hide Decided, Unique, GroundedTypes, FallbackAxis, BusinessArea;
  }

  /** What the policy decides on the processed answer. */
  function RoutingOf(st: State, i: Inputs): Decision
    requires st.facts.Some? && st.context.Some? && i.answer.Some?
  {
    Policy(i.settings, i.users, st.facts.value, ClassificationOf(Decided(i.answer.value, st.facts.value, i.signals)),
      st.context.value.selected)
  }

  lemma RoutedSelects(cfg: Config, users: seq<User>, facts: Facts, c: Classification, hits: seq<Hit>)
    ensures Policy(cfg, users, facts, c, hits).autoAssign ==> Policy(cfg, users, facts, c, hits).selected.Some?
  {
    hide Policy;
    if Policy(cfg, users, facts, c, hits).autoAssign {
      var _ := AutoAssignLeads(cfg, users, facts, c, hits);
    }
  }

  // ----- one run -----

  /** The nodes in a row, when nothing fails. */
  lemma Unfolded(st: State, saved: State, i: Inputs)
    ensures var a := Attempt(i, None, false);
      var decided := GenerateDecision(Reach(st, Generate), i);
      var ranked := GenerateCandidates(Reach(decided, Route), i);
      var checked := Validate(Reach(ranked, Check));
      var stored := Reach(checked, Store);
      RunFrom(st, saved, 2, a) ==
        if decided.status == ReviewRequired then decided
        else if ranked.status == ReviewRequired then ranked
        else if checked.status == ReviewRequired then checked
        else if Refuses(stored) then HalfStored(stored).(status := Failed)
        else Finished(Persist(stored))
  {
    hide GenerateDecision, GenerateCandidates, Validate, Persist, HalfStored;
    var a := Attempt(i, None, false);
    var decided := GenerateDecision(Reach(st, Generate), i);
    var ranked := GenerateCandidates(Reach(decided, Route), i);
    var checked := Validate(Reach(ranked, Check));
    var stored := Reach(checked, Store);
    assert RunFrom(st, saved, 2, a) == if decided.status == ReviewRequired then decided
      else RunFrom(decided, decided, 3, a);
    assert RunFrom(decided, decided, 3, a) == if ranked.status == ReviewRequired then ranked
      else RunFrom(ranked, ranked, 4, a);
    assert RunFrom(ranked, ranked, 4, a) == if checked.status == ReviewRequired then checked
      else RunFrom(checked, checked, 5, a);
    if checked.status != ReviewRequired && !Refuses(stored) {
      var done := Persist(stored);
      assert done.status == checked.status by { PersistStatus(stored); }
      assert RunFrom(done, done, 6, a) == Finished(done);
    }
  }

  lemma PersistStatus(st: State)
    requires !Refuses(st)
    ensures Persist(st).status == st.status
  {
  }

  /**
   * From the decision node on, when nothing fails. Whatever the model returns, whatever settings are stored and
   * whatever earlier runs left in the state: the mail is assigned and forwarded, to the selected user alone, exactly
   * when facts and an unblocked context are there, the answer passes, the policy finds a clear leader, and the mail was
   * not forwarded before. Were it forwarded before, the run fails; in every other case it ends in review, and nobody is
   * notified.
   */
  lemma Gate(st: State, i: Inputs)
    requires st.status == Running
    ensures var r := RunFrom(st, st, 2, Attempt(i, None, false));
      var cleared := st.facts.Some? && st.context.Some? && !st.blocked && Passes(i.answer, st.facts.value)
        && RoutingOf(st, i).autoAssign;
      && (r.status == Completed <==> cleared && st.forwarded == [])
      && (r.status == Completed ==>
            && r.routing == Some(RoutingOf(st, i)) && r.routing.value.selected.Some?
            && r.forwarded == [r.routing.value.selected.value] && r.assignee == Some(r.routing.value.selected)
            && r.assignment == Some(Assignment(r.routing.value.selected, Forwarded)))
      && (r.status != Completed ==> r.status == (if cleared then Failed else ReviewRequired)
                                    && r.forwarded == st.forwarded && r.assignee == st.assignee)
      && (r.status == ReviewRequired ==> r.reviewReason.Some?)
  {
    Unfolded(st, st, i);
    hide Decided, Policy, Passes, DecisionOutput, RunFrom, Unique;
    if st.facts.Some? && st.context.Some? {
      OutputReview(st.facts.value, st.blocked, i);
      var o := DecisionOutput(st.facts.value, st.blocked, i);
      RoutedSelects(i.settings, i.users, st.facts.value, ClassificationOf(o), st.context.value.selected);
    }
  }

  // ----- any number of failing and resumed runs -----

  /** The state's answer is this attempt's, processed, and it passes. */
  ghost predicate DecidedBy(st: State, a: Attempt) {
    && st.facts.Some? && Passes(a.inputs.answer, st.facts.value)
    && st.output == Some(Decided(a.inputs.answer.value, st.facts.value, a.inputs.signals))
  }

  /** The state's routing is this attempt's policy on that answer, and it assigns. */
  ghost predicate RoutedBy(st: State, a: Attempt) {
    && st.facts.Some? && st.context.Some? && st.output.Some?
    && st.routing
      == Some(Policy(a.inputs.settings, a.inputs.users, st.facts.value, ClassificationOf(st.output.value),
      st.context.value.selected))
    && Forwards(st.routing.value)
  }

  /** The state's context is this attempt's. */
  ghost predicate PreparedBy(st: State, a: Attempt) { st.context == a.inputs.prepared.context }

  /** What holds when node `k` is to be run next, `past` being the attempts made. */
  ghost predicate SoundAt(st: State, k: nat, past: seq<Attempt>) {
    && (k >= 1 ==> exists j :: 0 <= j < |past| && PreparedBy(st, past[j]))
    && (k >= 2 ==> st.context.Some? && (st.blocked || st.context.value.sufficient))
    && (k >= 3 ==> !st.blocked && exists j :: 0 <= j < |past| && DecidedBy(st, past[j]))
    && (k >= 4 ==> exists j :: 0 <= j < |past| && RoutedBy(st, past[j]))
  }

  /** Everything a forward rests on: a passing answer, a sufficient context and a deciding policy. */
  ghost predicate Warranted(st: State, past: seq<Attempt>) {
    SoundAt(st, 5, past) && !st.blocked && st.routing.Some? && st.routing.value.selected.Some?
  }

  /** The mail was forwarded at most once, and then on a warranted state, to the user selected in it. */
  ghost predicate SentOnce(past: seq<Attempt>, sent: seq<string>) {
    sent == [] || exists w: State :: Warranted(w, past) && sent == [w.routing.value.selected.value]
  }

  /** Two states that agree on what the decision rests on. */
  ghost predicate SameGrounds(st: State, next: State) {
    && next.facts == st.facts && next.context == st.context && next.blocked == st.blocked
    && next.output == st.output && next.routing == st.routing
  }

  lemma SoundSame(st: State, next: State, k: nat, past: seq<Attempt>)
    requires SoundAt(st, k, past) && SameGrounds(st, next)
    ensures SoundAt(next, k, past)
  {
    hide Passes, Decided, Policy;
    if k >= 1 { var p :| 0 <= p < |past| && PreparedBy(st, past[p]); assert PreparedBy(next, past[p]); }
    if k >= 3 { var d :| 0 <= d < |past| && DecidedBy(st, past[d]); assert DecidedBy(next, past[d]); }
    if k >= 4 { var r :| 0 <= r < |past| && RoutedBy(st, past[r]); assert RoutedBy(next, past[r]); }
  }

  /** What is sound for a later node is sound for an earlier one. */
  lemma SoundEarlier(st: State, k: nat, m: nat, past: seq<Attempt>)
    requires SoundAt(st, k, past) && m <= k
    ensures SoundAt(st, m, past)
  {
    hide DecidedBy, RoutedBy, PreparedBy;
  }

  lemma EvaluateSound(st: State, past: seq<Attempt>)
    requires SoundAt(st, 1, past) && st.status != ReviewRequired
    ensures var next := Evaluate(st);
      SoundAt(next, 1, past) && (next.status != ReviewRequired ==> SoundAt(next, 2, past))
  {
    hide Unique, Filter;
    var p :| 0 <= p < |past| && PreparedBy(st, past[p]);
    assert PreparedBy(Evaluate(st), past[p]);
  }

  lemma GenerateSound(st: State, a: Attempt, past: seq<Attempt>, j: nat)
    requires SoundAt(st, 2, past) && j < |past| && past[j] == a && st.status != ReviewRequired
    ensures var next := GenerateDecision(st, a.inputs);
      SoundAt(next, 2, past) && (next.status != ReviewRequired ==> SoundAt(next, 3, past))
  {
    hide Passes, Decided, DecisionOutput, RoutedBy;
    var next := GenerateDecision(st, a.inputs);
    var p :| 0 <= p < |past| && PreparedBy(st, past[p]);
    assert PreparedBy(next, past[p]);
    if st.facts.Some? { OutputReview(st.facts.value, st.blocked, a.inputs); }
    if next.status != ReviewRequired { assert DecidedBy(next, past[j]); }
  }

  /** The routing of this attempt replaces an earlier one; the answer stays. */
  lemma RouteSound(st: State, a: Attempt, past: seq<Attempt>, j: nat)
    requires SoundAt(st, 3, past) && j < |past| && past[j] == a
    ensures var next := GenerateCandidates(st, a.inputs);
      SoundAt(next, 3, past) && (next.status != ReviewRequired ==> SoundAt(next, 4, past))
    ensures SoundAt(HalfRouted(st, a.inputs), 3, past)
  {
    hide Passes, Decided, Policy, Unique;
    var next, half := GenerateCandidates(st, a.inputs), HalfRouted(st, a.inputs);
    var p :| 0 <= p < |past| && PreparedBy(st, past[p]);
    assert PreparedBy(next, past[p]) && PreparedBy(half, past[p]);
    var d :| 0 <= d < |past| && DecidedBy(st, past[d]);
    assert DecidedBy(next, past[d]) && DecidedBy(half, past[d]);
    RoutedSelects(a.inputs.settings, a.inputs.users, st.facts.value, ClassificationOf(st.output.value),
      st.context.value.selected);
    if next.status != ReviewRequired { assert RoutedBy(next, past[j]); }
  }

  lemma CheckSound(st: State, past: seq<Attempt>)
    requires SoundAt(st, 4, past)
    ensures SoundAt(Validate(st), 5, past)
  {
    hide DecidedBy, RoutedBy, PreparedBy;
    SoundUpToFive(st, past);
    SoundSame(st, Validate(st), 5, past);
  }

  lemma SoundUpToFive(st: State, past: seq<Attempt>)
    requires SoundAt(st, 4, past)
    ensures SoundAt(st, 5, past)
  {
    hide DecidedBy, RoutedBy, PreparedBy;
  }

  /** One handler: the run may stop at its node or go on behind it. */
  lemma HandleSound(st: State, k: nat, a: Attempt, past: seq<Attempt>, j: nat)
    requires k < 5 && SoundAt(st, k, past) && j < |past| && past[j] == a && st.status != ReviewRequired
    ensures var next := Handle(SEQUENCE[k], st, a.inputs);
      SoundAt(next, k, past) && (next.status != ReviewRequired ==> SoundAt(next, k + 1, past))
  {
    hide SoundAt, Evaluate, GenerateDecision, GenerateCandidates, Validate, Persist;
    if k == 0 { PrepareSound(st, a, past, j); }
    else if k == 1 { EvaluateSound(st, past); }
    else if k == 2 { GenerateSound(st, a, past, j); }
    else if k == 3 { RouteSound(st, a, past, j); }
    else {
      CheckSound(st, past);
      SoundEarlier(Validate(st), 5, 4, past);
    }
  }

  lemma PrepareSound(st: State, a: Attempt, past: seq<Attempt>, j: nat)
    requires j < |past| && past[j] == a
    ensures SoundAt(Prepares(st, a.inputs), 0, past) && SoundAt(Prepares(st, a.inputs), 1, past)
  {
    assert PreparedBy(Prepares(st, a.inputs), past[j]);
  }

  lemma HalfSound(st: State, k: nat, a: Attempt, past: seq<Attempt>, j: nat)
    requires k < |SEQUENCE| && SoundAt(st, k, past) && j < |past| && past[j] == a
    ensures SoundAt(Half(SEQUENCE[k], st, a.inputs), k, past)
  {
    assert k != 0 && k != 3 ==> SEQUENCE[k] != Prepare && SEQUENCE[k] != Route;
    hide *;
    if k == 0 {
      SoundNowhere(Half(SEQUENCE[k], st, a.inputs), past);
    } else if k == 3 {
      RouteSound(st, a, past, j);
      HalfRoute(st, a.inputs);
    } else {
      HalfGrounds(SEQUENCE[k], st, a.inputs);
      SoundSame(st, Half(SEQUENCE[k], st, a.inputs), k, past);
    }
  }

  lemma HalfRoute(st: State, i: Inputs)
    ensures SEQUENCE[3] == Route && Half(Route, st, i) == HalfRouted(st, i)
  {
    hide HalfRouted;
  }

  lemma HalfGrounds(node: Node, st: State, i: Inputs)
    requires node != Prepare && node != Route
    ensures SameGrounds(st, Half(node, st, i))
  {
  }

  lemma SoundNowhere(st: State, past: seq<Attempt>)
    ensures SoundAt(st, 0, past)
  {
  }

  // ----- the tables of the mail -----

  /** A step that neither reads nor writes the notifications, keeps the current node and does not complete the run. */
  ghost predicate Frame(st: State, next: State, free: State, forwarded: seq<string>) {
    && next.forwarded == st.forwarded && next.current == st.current
      && (st.status != Completed ==> next.status != Completed)
    && free == next.(forwarded := forwarded)
  }

  lemma GenerateFrame(st: State, i: Inputs, forwarded: seq<string>)
    ensures Frame(st, GenerateDecision(st, i), GenerateDecision(st.(forwarded := forwarded), i), forwarded)
  {
    hide DecisionOutput;
  }

  lemma RouteFrame(st: State, i: Inputs, forwarded: seq<string>)
    ensures Frame(st, GenerateCandidates(st, i), GenerateCandidates(st.(forwarded := forwarded), i), forwarded)
  {
    hide Policy, Unique;
    if st.facts.Some? && st.output.Some? && st.context.Some? {
      assert DecisionFor(st, i) == DecisionFor(st.(forwarded := forwarded), i);
      hide DecisionFor;
    }
  }

  lemma EvaluateFrame(st: State, forwarded: seq<string>)
    ensures Frame(st, Evaluate(st), Evaluate(st.(forwarded := forwarded)), forwarded)
  {
    hide Unique, Filter;
  }

  /** No node but the last touches the notifications, and none but the last reads them. */
  lemma HandleFrame(node: Node, st: State, i: Inputs, forwarded: seq<string>)
    requires node != Store
    ensures Frame(st, Handle(node, st, i), Handle(node, st.(forwarded := forwarded), i), forwarded)
  {
    hide GenerateDecision, GenerateCandidates, Evaluate;
    match node
    case EvaluateContext => EvaluateFrame(st, forwarded); hide Frame;
    case Generate => GenerateFrame(st, i, forwarded); hide Frame;
    case Route => RouteFrame(st, i, forwarded); hide Frame;
    case _ =>
  }

  lemma HalfFrame(node: Node, st: State, i: Inputs)
    ensures Half(node, st, i).forwarded == st.forwarded && Half(node, st, i).current == st.current
  {
    hide Policy;
  }

  /** What a run may do to the notifications, and what it has done when it completes. */
  ghost predicate RunOutcome(st: State, r: State, past: seq<Attempt>) {
    && SoundAt(r, StartIndex(r.current), past)
    && (r.forwarded == st.forwarded || (st.forwarded == [] && SentOnce(past, r.forwarded)))
    && (r.status == Completed ==> st.forwarded == [] && Delivered(r, past))
  }

  /** The mail was assigned and forwarded, once, on warranted grounds. */
  ghost predicate Delivered(st: State, past: seq<Attempt>) {
    && Warranted(st, past) && st.routing.Some? && st.routing.value.selected.Some?
    && st.forwarded == [st.routing.value.selected.value] && st.assignee == Some(st.routing.value.selected)
    && st.assignment == Some(Assignment(st.routing.value.selected, Forwarded))
  }

  lemma FailsOutcome(before: State, st: State, saved: State, a: Attempt, past: seq<Attempt>)
    requires SoundAt(st, StartIndex(st.current), past) && SoundAt(saved, StartIndex(saved.current), past)
      && saved.status != Completed
    requires st.forwarded == before.forwarded || (before.forwarded == [] && SentOnce(past, st.forwarded))
    ensures RunOutcome(before, Fails(st, saved, a), past)
  {
    hide SentOnce, SoundAt, Delivered;
    var r := Fails(st, saved, a);
    SoundSame(if a.lost then saved else st, r, StartIndex(r.current), past);
  }

  lemma StoreSound(st: State, past: seq<Attempt>)
    requires SoundAt(st, 5, past) && !Refuses(st)
    ensures var next := Persist(st);
      && SoundAt(next, 5, past) && st.forwarded == [] && SentOnce(past, next.forwarded)
      && next.status == st.status && next.current == st.current && Delivered(Finished(next), past)
  {
    var next := Persist(st);
    SoundSame(st, next, 5, past);
    SoundSame(st, Finished(next), 5, past);
    assert Forwards(st.routing.value) by { hide DecidedBy, PreparedBy, Policy; }
    hide SoundAt;
    assert Warranted(next, past) by { BlockedNever(st, past); }
  }

  lemma BlockedNever(st: State, past: seq<Attempt>)
    requires SoundAt(st, 5, past)
    ensures !st.blocked
  {
  }

  lemma EndOutcome(before: State, st: State, saved: State, a: Attempt, past: seq<Attempt>)
    requires before.forwarded == [] && SentOnce(past, st.forwarded) && Delivered(Finished(st), past)
    requires SoundAt(saved, StartIndex(saved.current), past) && saved.status != Completed
    ensures RunOutcome(before, RunFrom(st, saved, |SEQUENCE|, a), past)
  {
    hide SentOnce, Delivered;
    SoundNowhere(Finished(st), past);
    hide SoundAt;
    FailsOutcome(before, Finished(st), saved, a, past);
  }

  lemma {:induction false} RunSound(st: State, saved: State, k: nat, a: Attempt, past: seq<Attempt>, j: nat)
    requires k < |SEQUENCE| && SoundAt(st, k, past) && j < |past| && past[j] == a
    requires SoundAt(saved, StartIndex(saved.current), past) && saved.status != Completed
    requires st.status != ReviewRequired && st.status != Completed
    ensures RunOutcome(st, RunFrom(st, saved, k, a), past)
    decreases |SEQUENCE| - k
  {
    hide SoundAt, SentOnce, Delivered, Handle, Half, Fails, RunOutcome, Refuses;
    var node := SEQUENCE[k];
    var at := Reach(st, node);
    SoundSame(st, at, k, past);
    if a.fault == Some(At(node, Before)) {
      FailsOutcome(st, at, saved, a, past);
    } else if Raises(node, at, a) {
      HalfSound(at, k, a, past, j);
      HalfFrame(node, at, a.inputs);
      FailsOutcome(st, Half(node, at, a.inputs), saved, a, past);
    } else if k < 5 {
      StepSound(st, at, saved, k, a, past, j);
      var next := Handle(node, at, a.inputs);
      HandleFrame(node, at, a.inputs, []);
      if a.fault != Some(At(node, Behind)) && next.status != ReviewRequired {
        HandleSound(at, k, a, past, j);
        RunSound(next, next, k + 1, a, past, j);
        SameStart(st, next, RunFrom(next, next, k + 1, a), past);
      }
    } else {
      LastSound(st, at, saved, a, past);
      StoreHandles(at, a.inputs);
    }
  }

  lemma StoreHandles(st: State, i: Inputs)
    requires !Refuses(st)
    ensures Handle(Store, st, i) == Persist(st) && Persist(st).status == st.status
  {
  }

  lemma SameStart(a: State, b: State, r: State, past: seq<Attempt>)
    requires a.forwarded == b.forwarded && RunOutcome(b, r, past)
    ensures RunOutcome(a, r, past)
  {
  }

  lemma StepPlaces(st: State, k: nat, i: Inputs)
    requires k < 5 && st.status != Completed
    ensures SEQUENCE[k] != Store
    ensures var next := Handle(SEQUENCE[k], Reach(st, SEQUENCE[k]), i);
      StartIndex(next.current) == k && next.status != Completed && next.forwarded == st.forwarded
  {
    HandleFrame(SEQUENCE[k], Reach(st, SEQUENCE[k]), i, []);
    hide Handle;
  }

  /** A handler in the middle that does not raise: what follows when the run ends behind it. */
  lemma StepSound(st: State, at: State, saved: State, k: nat, a: Attempt, past: seq<Attempt>, j: nat)
    requires k < 5 && at == Reach(st, SEQUENCE[k]) && SoundAt(at, k, past) && j < |past| && past[j] == a
    requires SoundAt(saved, StartIndex(saved.current), past) && saved.status != Completed
    requires at.status != ReviewRequired && at.status != Completed
    ensures var next := Handle(SEQUENCE[k], at, a.inputs);
      && (next.status == ReviewRequired ==> RunOutcome(st, next, past)) && RunOutcome(st, Fails(next, saved, a), past)
  {
    var next := Handle(SEQUENCE[k], at, a.inputs);
    StepPlaces(st, k, a.inputs);
    hide *;
    HandleSound(at, k, a, past, j);
    FailsOutcome(st, next, saved, a, past);
    ReviewOutcome(st, next, past);
  }

  lemma ReviewOutcome(st: State, next: State, past: seq<Attempt>)
    requires next.forwarded == st.forwarded && next.status != Completed && SoundAt(next, StartIndex(next.current), past)
    ensures RunOutcome(st, next, past)
  {
    hide SoundAt;
  }

  /** The last node, when it does not raise. */
  lemma LastSound(st: State, at: State, saved: State, a: Attempt, past: seq<Attempt>)
    requires at == Reach(st, Store) && SoundAt(at, 5, past) && !Refuses(at)
    requires SoundAt(saved, StartIndex(saved.current), past) && saved.status != Completed
    requires at.status != ReviewRequired && at.status != Completed
    ensures var next := Persist(at);
      RunOutcome(st, RunFrom(next, next, 6, a), past) && RunOutcome(st, Fails(next, saved, a), past)
  {
    hide SoundAt, SentOnce, Delivered, Persist, Fails, RunOutcome;
    StoreSound(at, past);
    var next := Persist(at);
    assert StartIndex(next.current) == 5;
    FailsOutcome(st, next, saved, a, past);
    EndOutcome(st, next, next, a, past);
  }

  lemma SoundLater(st: State, k: nat, past: seq<Attempt>, a: Attempt)
    requires SoundAt(st, k, past)
    ensures SoundAt(st, k, past + [a])
  {
    hide DecidedBy, RoutedBy, PreparedBy;
    if k >= 1 { var p :| 0 <= p < |past| && PreparedBy(st, past[p]); assert PreparedBy(st, (past + [a])[p]); }
    if k >= 3 { var d :| 0 <= d < |past| && DecidedBy(st, past[d]); assert DecidedBy(st, (past + [a])[d]); }
    if k >= 4 { var r :| 0 <= r < |past| && RoutedBy(st, past[r]); assert RoutedBy(st, (past + [a])[r]); }
  }

  lemma SentLater(past: seq<Attempt>, sent: seq<string>, a: Attempt)
    requires SentOnce(past, sent)
    ensures SentOnce(past + [a], sent)
  {
    hide SoundAt;
    if sent != [] {
      var w: State :| Warranted(w, past) && sent == [w.routing.value.selected.value];
      SoundLater(w, 5, past, a);
      assert Warranted(w, past + [a]);
    }
  }

  lemma OutcomeLater(st: State, r: State, past: seq<Attempt>, a: Attempt)
    requires RunOutcome(st, r, past)
    ensures RunOutcome(st, r, past + [a])
  {
    hide SoundAt, SentOnce;
    SoundLater(r, StartIndex(r.current), past, a);
    if r.status == Completed { SoundLater(r, 5, past, a); }
    if SentOnce(past, r.forwarded) { SentLater(past, r.forwarded, a); }
  }

  lemma AttemptsSnoc(start: State, attempts: seq<Attempt>)
    requires attempts != []
    ensures var n := |attempts| - 1; var before := Attempts(start, attempts[..n]);
      Attempts(start, attempts) == if before.status == Completed then before else RunNodes(before, attempts[n])
  {
    hide RunNodes;
  }

  /**
   * However often a run fails, before, within or behind any node, loses what it had not saved, goes to review and is
   * resumed, with other mails read, answers, users and settings each time: the mail is forwarded at most once, and only
   * to a user whom the policy of one of these attempts selected on an answer that passed and a sufficient context. A
   * run that completes has forwarded the mail to the user it assigned; one whose mail was forwarded before it started
   * never does.
   */
  lemma {:induction false} ResumedGate(start: State, attempts: seq<Attempt>)
    requires StartIndex(start.current) == 0 && start.status != Completed
    ensures RunOutcome(start, Attempts(start, attempts), attempts)
  {
    hide *;
    if attempts == [] {
      NothingTried(start);
    } else {
      var n := |attempts| - 1;
      var past, a := attempts[..n], attempts[n];
      ResumedGate(start, past);
      AttemptsSnoc(start, attempts);
      assert past + [a] == attempts;
      var before := Attempts(start, past);
      OutcomeLater(start, before, past, a);
      if before.status != Completed { AttemptSound(start, before, attempts); }
    }
  }

  lemma NothingTried(start: State)
    requires StartIndex(start.current) == 0 && start.status != Completed
    ensures RunOutcome(start, Attempts(start, []), [])
  {
    SoundNowhere(start, []);
  }

  lemma AttemptSound(start: State, before: State, attempts: seq<Attempt>)
    requires attempts != [] && before.status != Completed && RunOutcome(start, before, attempts)
    ensures RunOutcome(start, RunNodes(before, attempts[|attempts| - 1]), attempts)
  {
    var a := attempts[|attempts| - 1];
    hide RunFrom, SoundAt, SentOnce, Delivered;
    if a.fault != Some(Begin) {
      var k, started := StartIndex(before.current), before.(status := Running);
      SoundSame(before, started, k, attempts);
      RunSound(started, started, k, a, attempts, |attempts| - 1);
      Chained(start, before, RunNodes(before, a), attempts);
    }
  }

  lemma Chained(start: State, before: State, r: State, past: seq<Attempt>)
    requires RunOutcome(start, before, past) && RunOutcome(before.(status := Running), r, past)
    ensures RunOutcome(start, r, past)
  {
    hide SoundAt, Delivered, SentOnce;
  }

  /**
   * In particular, for a mail that was not forwarded before: it is forwarded to a user whom the deciding attempt listed
   * and who reached that attempt's threshold, on a real answer, never a fallback, with confidence at least 0.78, no
   * contradiction, no unsupported claim and the one grounded type. This holds of failed runs as well.
   */
  lemma ForwardIsSafe(start: State, attempts: seq<Attempt>) returns (facts: Facts, d: nat, r: nat, k: nat)
    requires StartIndex(start.current) == 0 && start.status != Completed && start.forwarded == []
    requires Attempts(start, attempts).forwarded != []
    ensures d < |attempts| && attempts[d].inputs.answer.Some?
    ensures var o := attempts[d].inputs.answer.value;
      && o.confidence >= 0.78 && o.unsupportedClaims == [] && facts.contradictions == []
      && (|GroundedTypes(facts.requestTypes)| == 1 ==> o.primaryType == GroundedTypes(facts.requestTypes)[0])
    ensures r < |attempts| && k < |attempts[r].inputs.users|
    ensures var st, i := Attempts(start, attempts), attempts[r].inputs;
      && st.forwarded == [i.users[k].id]
      && exists c, hits :: Policy(i.settings, i.users, facts, c, hits).selected == Some(i.users[k].id)
                           && Policy(i.settings, i.users, facts, c, hits).confidence >= i.settings.threshold
  {
    ResumedGate(start, attempts);
    hide Attempts, SoundAt, Policy, GroundedTypes, Total;
    var sent := Attempts(start, attempts).forwarded;
    var w: State :| Warranted(w, attempts) && sent == [w.routing.value.selected.value];
    facts, d, r := Grounds(w, attempts);
    var i := attempts[r].inputs;
    k := AutoAssignLeads(i.settings, i.users, facts, ClassificationOf(w.output.value), w.context.value.selected);
  }

  /** The attempts that decided and routed. */
  lemma Grounds(w: State, past: seq<Attempt>) returns (facts: Facts, d: nat, r: nat)
    requires SoundAt(w, 5, past)
    ensures w.facts == Some(facts) && w.output.Some? && w.context.Some? && d < |past| && r < |past|
    ensures Passes(past[d].inputs.answer, facts)
    ensures var i := past[r].inputs;
      && w.routing
        == Some(Policy(i.settings, i.users, facts, ClassificationOf(w.output.value), w.context.value.selected))
      && Forwards(w.routing.value)
  {
    hide Policy, Decided, PreparedBy, Passes;
    d :| 0 <= d < |past| && DecidedBy(w, past[d]);
    r :| 0 <= r < |past| && RoutedBy(w, past[r]);
    facts := w.facts.value;
  }

  /** The context is one that retrieval made. */
  ghost predicate Retrieved(c: Context) {
    exists f: Facts, search: Search, maxCycles: int, promptLimit: int ::
      c == Retrieve(f, search, maxCycles, promptLimit)
  }

  lemma RetrievedHasEvidence(c: Context)
    requires Retrieved(c) && c.sufficient
    ensures HasAssignee(c.selected) && HasStrong(c.selected) && c.cycles != [] && c.cycles[|c.cycles| - 1].sufficient
  {
    var f, search, maxCycles, promptLimit :| c == Retrieve(f, search, maxCycles, promptLimit);
    FinalSufficientMeansLast(f, search, maxCycles, promptLimit);
    hide Cycles, Select, HasAssignee, HasStrong, Missing;
  }

  lemma WarrantedContext(w: State, past: seq<Attempt>) returns (p: nat)
    requires Warranted(w, past)
    ensures w.context.Some? && w.context.value.sufficient && p < |past| && past[p].inputs.prepared.context == w.context
  {
    hide DecidedBy, RoutedBy;
    p :| 0 <= p < |past| && PreparedBy(w, past[p]);
  }

  /**
   * And with contexts that retrieval made: it rests on the evidence one of the attempts selected, which names an
   * assignee, holds a hit of at least 0.65, and was found by a last cycle that was sufficient.
   */
  lemma ForwardHasEvidence(start: State, attempts: seq<Attempt>) returns (p: nat)
    requires StartIndex(start.current) == 0 && start.status != Completed && start.forwarded == []
    requires Attempts(start, attempts).forwarded != []
    requires forall j :: 0 <= j < |attempts| ==>
      attempts[j].inputs.prepared.context.Some? ==> Retrieved(attempts[j].inputs.prepared.context.value)
    ensures p < |attempts| && attempts[p].inputs.prepared.context.Some?
    ensures var c := attempts[p].inputs.prepared.context.value;
      HasAssignee(c.selected) && HasStrong(c.selected) && c.cycles != [] && c.cycles[|c.cycles| - 1].sufficient
  {
    ResumedGate(start, attempts);
    hide Attempts, Retrieved, SoundAt;
    var sent := Attempts(start, attempts).forwarded;
    var w: State :| Warranted(w, attempts) && sent == [w.routing.value.selected.value];
    p := WarrantedContext(w, attempts);
    hide *;
    RetrievedHasEvidence(attempts[p].inputs.prepared.context.value);
  }

  // ----- forwarded without completion -----

  /** The attempt would have completed, but failed behind the effects of the store node. */
  ghost predicate FailsBehindStore(st: State, a: Attempt) {
    && (a.fault == Some(At(Store, Behind)) || a.fault == Some(End))
    && RunNodes(st, a.(fault := None)).status == Completed
  }

  /** At the store node there is a decision to forward. */
  predicate Ready(st: State, k: nat) { k >= 5 ==> st.routing.Some? && Forwards(st.routing.value) }

  lemma ReadyWhenSound(st: State, k: nat, past: seq<Attempt>)
    requires SoundAt(st, k, past)
    ensures Ready(st, k)
  {
    hide DecidedBy, PreparedBy, Policy;
  }

  lemma HandleReady(st: State, k: nat, i: Inputs)
    requires k < 5 && st.status != ReviewRequired
    ensures var next := Handle(SEQUENCE[k], st, i); next.status == ReviewRequired || Ready(next, k + 1)
  {
    hide Prepares, Evaluate, GenerateDecision, GenerateCandidates;
  }

  /** One run, compared with what it would have been without its fault. */
  lemma {:induction false} RunFails(st: State, saved: State, k: nat, a: Attempt)
    requires k < |SEQUENCE| && Ready(st, k) && st.forwarded == []
    requires st.status != ReviewRequired && st.status != Completed && saved.status != Completed
    ensures var r, free := RunFrom(st, saved, k, a), RunFrom(st, saved, k, a.(fault := None));
      && (r.status == Completed ==> r.forwarded != [])
      && (r.forwarded != [] && r.status != Completed <==>
            (a.fault == Some(At(Store, Behind)) || a.fault == Some(End)) && free.status == Completed)
    decreases |SEQUENCE| - k
  {
    hide Handle, Half;
    var node, calm := SEQUENCE[k], a.(fault := None);
    var at := Reach(st, node);
    if k < 5 {
      HandleFrame(node, at, a.inputs, []);
      HalfFrame(node, at, a.inputs);
      HandleReady(at, k, a.inputs);
      var next := Handle(node, at, a.inputs);
      assert RunFrom(st, saved, k, calm) == if next.status == ReviewRequired then next
        else RunFrom(next, next, k + 1, calm);
      if a.fault == Some(At(node, Before)) || a.fault == Some(At(node, Within)) || a.fault == Some(At(node, Behind))
        || next.status == ReviewRequired {
        hide RunFrom;
      } else {
        RunFails(next, next, k + 1, a);
      }
    } else {
      StoreFails(st, saved, a);
    }
  }

  /** What the last node does to a mail with a decision to forward. */
  lemma StoreFails(st: State, saved: State, a: Attempt)
    requires Ready(st, 5) && st.status != ReviewRequired && st.status != Completed && saved.status != Completed
    ensures var r, free := RunFrom(st, saved, 5, a), RunFrom(st, saved, 5, a.(fault := None));
      if st.forwarded == [] then
        && free.status == Completed && (r.status == Completed ==> r.forwarded != [])
        && (r.forwarded != [] && r.status != Completed <==> a.fault == Some(At(Store, Behind)) || a.fault == Some(End))
      else r.status != Completed && r.forwarded == st.forwarded
  {
    var at := Reach(st, Store);
    if st.forwarded == [] {
      var next := Persist(at);
      assert RunFrom(next, next, 6, a) == if a.fault == Some(End) then Fails(Finished(next), next, a)
        else Finished(next);
      assert RunFrom(next, next, 6, a.(fault := None)) == Finished(next);
    }
  }

  /** A mail that was forwarded before: the run cannot complete, and does to the rest what it would do to any mail. */
  lemma {:induction false} RunStuck(st: State, saved: State, k: nat, a: Attempt)
    requires k < |SEQUENCE| && Ready(st, k) && st.forwarded != []
    requires st.status != ReviewRequired && st.status != Completed && saved.status != Completed
    ensures var r := RunFrom(st, saved, k, a); r.status != Completed && r.forwarded == st.forwarded
    decreases |SEQUENCE| - k
  {
    hide Handle, Half;
    var node := SEQUENCE[k];
    var at := Reach(st, node);
    if k < 5 {
      HandleFrame(node, at, a.inputs, []);
      HalfFrame(node, at, a.inputs);
      HandleReady(at, k, a.inputs);
      var next := Handle(node, at, a.inputs);
      if a.fault == Some(At(node, Before)) || a.fault == Some(At(node, Within)) || a.fault == Some(At(node, Behind))
        || next.status == ReviewRequired {
      } else {
        RunStuck(next, next, k + 1, a);
      }
    } else {
      StoreFails(st, saved, a);
    }
  }

  /** One more attempt on a run that has not completed. */
  lemma AttemptFails(start: State, past: seq<Attempt>, a: Attempt)
    requires StartIndex(start.current) == 0 && start.status != Completed
    ensures var before, r := Attempts(start, past), RunNodes(Attempts(start, past), a);
      before.status != Completed ==>
        if before.forwarded == [] then
          && (r.status == Completed ==> r.forwarded != [])
          && (r.forwarded != [] && r.status != Completed <==> FailsBehindStore(before, a))
        else r.status != Completed && r.forwarded == before.forwarded
  {
    ResumedGate(start, past);
    hide SoundAt, SentOnce, Delivered, Attempts, RunFrom;
    var before := Attempts(start, past);
    if before.status != Completed {
      var started, k := before.(status := Running), StartIndex(before.current);
      SoundSame(before, started, k, past);
      ReadyWhenSound(started, k, past);
      if before.forwarded == [] { RunFails(started, started, k, a); } else { RunStuck(started, started, k, a); }
    }
  }

  /** Attempt `j` of the run would have completed it, but failed behind the store node. */
  ghost predicate FailedBehind(start: State, attempts: seq<Attempt>, j: nat)
    requires j < |attempts|
  {
    Attempts(start, attempts[..j]).status != Completed && FailsBehindStore(Attempts(start, attempts[..j]), attempts[j])
  }

  ghost predicate SomeFailedBehind(start: State, attempts: seq<Attempt>) {
    exists j :: 0 <= j < |attempts| && FailedBehind(start, attempts, j)
  }

  lemma FailedSnoc(start: State, attempts: seq<Attempt>)
    requires attempts != []
    ensures var n := |attempts| - 1; var before := Attempts(start, attempts[..n]);
      SomeFailedBehind(start, attempts) <==>
        SomeFailedBehind(start, attempts[..n]) || (before.status != Completed && FailsBehindStore(before, attempts[n]))
  {
    hide FailsBehindStore, Attempts;
    var n := |attempts| - 1;
    forall j | 0 <= j < n ensures FailedBehind(start, attempts[..n], j) <==> FailedBehind(start, attempts, j) {
      assert attempts[..n][..j] == attempts[..j];
    }
    assert FailedBehind(start, attempts, n) <==>
      Attempts(start, attempts[..n]).status != Completed
        && FailsBehindStore(Attempts(start, attempts[..n]), attempts[n]);
    hide FailedBehind;
    if j :| 0 <= j < n && FailedBehind(start, attempts, j) { assert FailedBehind(start, attempts[..n], j); }
  }

  /**
   * A mail is forwarded by a run that has not completed if and only if an attempt would have completed it but failed
   * behind the effects of the store node. The run is stuck then: no later attempt completes it.
   */
  lemma {:induction false} ForwardedIncompleteIff(start: State, attempts: seq<Attempt>)
    requires StartIndex(start.current) == 0 && start.status != Completed && start.forwarded == []
    ensures var r := Attempts(start, attempts);
      && (r.status == Completed ==> r.forwarded != [])
      && (r.forwarded != [] && r.status != Completed <==> SomeFailedBehind(start, attempts))
  {
    if attempts != [] {
      hide *;
      var n := |attempts| - 1;
      var past := attempts[..n];
      ForwardedIncompleteIff(start, past);
      AttemptFails(start, past, attempts[n]);
      FailedSnoc(start, attempts);
      AttemptsSnoc(start, attempts);
    }
  }

  /** Such an input is any that would be forwarded: the last save fails behind it, and the mail is out. */
  lemma ClearedFailsBehind(st: State, i: Inputs)
    requires st.current == Some(Generate) && st.forwarded == []
    requires st.facts.Some? && st.context.Some? && !st.blocked && Passes(i.answer, st.facts.value)
    requires RoutingOf(st, i).autoAssign
    ensures var a := Attempt(i, Some(End), false);
      FailsBehindStore(st, a) && RunNodes(st, a).forwarded != [] && RunNodes(st, a).status != Completed
  {
    var a, started := Attempt(i, Some(End), false), st.(status := Running);
    assert a.(fault := None) == Attempt(i, None, false);
    hide Passes, Policy, Decided, RunFrom;
    assert RoutingOf(started, i) == RoutingOf(st, i);
    Gate(started, i);
    RunFails(started, started, 2, a);
  }

  /** `r` is the stuck run on a mail that was forwarded, `free` the run on the same mail had it not been. */
  ghost predicate Twin(r: State, free: State, forwarded: seq<string>) {
    if free.status == Completed then
      && r.status == Failed && r.current == Some(Store) && r.routing == free.routing && r.forwarded == forwarded
      && free.routing.Some? && r.assignment == Some(Assignment(free.routing.value.selected, Assigned))
    else r == free.(forwarded := forwarded)
  }

  lemma {:induction false} RunTwin(st: State, saved: State, k: nat, a: Attempt)
    requires k < |SEQUENCE| && Ready(st, k) && st.forwarded != [] && a.fault == None && !a.lost
    requires st.status != ReviewRequired && st.status != Completed
    ensures Twin(RunFrom(st, saved, k, a), RunFrom(st.(forwarded := []), saved.(forwarded := []), k, a), st.forwarded)
    decreases |SEQUENCE| - k
  {
    hide Handle, Half;
    var node := SEQUENCE[k];
    var at, freeAt := Reach(st, node), Reach(st.(forwarded := []), node);
    if k < 5 {
      HandleFrame(node, at, a.inputs, []);
      HandleReady(at, k, a.inputs);
      var next, free := Handle(node, at, a.inputs), Handle(node, freeAt, a.inputs);
      assert RunFrom(st.(forwarded := []), saved.(forwarded := []), k, a)
          == if free.status == ReviewRequired then free else RunFrom(free, free, k + 1, a);
      hide Twin;
      if next.status != ReviewRequired { RunTwin(next, next, k + 1, a); } else { ReviewTwin(next, free, st.forwarded); }
    } else {
      StoreTwin(st, saved, a);
    }
  }

  lemma StoreTwin(st: State, saved: State, a: Attempt)
    requires Ready(st, 5) && st.forwarded != [] && a.fault == None && !a.lost
    requires st.status != ReviewRequired && st.status != Completed
    ensures Twin(RunFrom(st, saved, 5, a), RunFrom(st.(forwarded := []), saved.(forwarded := []), 5, a), st.forwarded)
  {
    var free := Persist(Reach(st.(forwarded := []), Store));
    assert RunFrom(free, free, 6, a) == Finished(free);
  }

  lemma ReviewTwin(r: State, free: State, forwarded: seq<string>)
    requires free.status == ReviewRequired && r == free.(forwarded := forwarded)
    ensures Twin(r, free, forwarded)
  {
  }

  /**
   * What the next attempt does to a mail that was forwarded: up to the store node what it would do to any mail. There
   * it fails, and it has taken the assignment back from forwarded to assigned, and to the user it selected itself.
   */
  lemma ForwardedAgain(start: State, past: seq<Attempt>, a: Attempt)
    requires StartIndex(start.current) == 0 && start.status != Completed && a.fault == None && !a.lost
    requires Attempts(start, past).status != Completed && Attempts(start, past).forwarded != []
    ensures var before := Attempts(start, past);
      Twin(RunNodes(before, a), RunNodes(before.(forwarded := []), a), before.forwarded)
  {
    ResumedGate(start, past);
    hide SoundAt, SentOnce, Delivered, Attempts, RunFrom, Twin;
    var before := Attempts(start, past);
    var started, k := before.(status := Running), StartIndex(before.current);
    SoundSame(before, started, k, past);
    ReadyWhenSound(started, k, past);
    RunTwin(started, started, k, a);
  }
}
