/** The nodes of the mail decision workflow and the orchestrator that runs, stops and resumes them. */
module DecisionNodes {
  import opened MailSchemas
  import opened RoutingPolicy
  import opened RoutingLaws
  import opened DecisionAgent
  import opened Retrieval

  datatype Status = Running | ReviewRequired | AutoAssigned | Completed | Failed

  /**
   * `Prepare` stands for the five nodes that read the mail, extract facts and retrieve; the others are the source's
   * own.
   */
  datatype Node = Prepare | EvaluateContext | Generate | Route | Check | Store

  const SEQUENCE := [Prepare, EvaluateContext, Generate, Route, Check, Store]

  /** The routing assignment of the mail: who has it, and how far it went. */
  datatype Mark = Assigned | Forwarded | InReview
  datatype Assignment = Assignment(user: Option<string>, mark: Mark)

  /**
   * The state of a run and the tables of its mail. `context` is the retrieval context, `blocked` says that retrieval
   * was found insufficient, `current` is the node last started. The tables are `assignment` and `forwarded`, the
   * notifications sent under the one key the mail has for them; they are written at once, the rest when the run is
   * saved.
   */
  datatype State = State(
    current: Option<Node>, facts: Option<Facts>, context: Option<Context>, blocked: bool,
    output: Option<Output>, routing: Option<Decision>,
    reviewReason: Option<string>, warnings: seq<string>, status: Status, assignee: Option<Option<string>>,
    assignment: Option<Assignment>, forwarded: seq<string>)

  /** What the preparing nodes leave in the state. */
  datatype Prepared = Prepared(facts: Option<Facts>, context: Option<Context>, reviewReason: Option<string>,
      warnings: seq<string>)

  /** What the nodes are given from outside: the model's answer if there is one, the users, and the stored settings. */
  datatype Inputs = Inputs(prepared: Prepared, answer: Option<Output>, signals: Signals, users: seq<User>,
      settings: Config)

  /**
   * Where a node fails: before its handler has an effect, halfway through, or behind it, when the step or the run is
   * saved.
   */
  datatype Point = Before | Within | Behind
  datatype Fault = Begin | At(node: Node, point: Point) | End

  /**
   * One call of the orchestrator: what its nodes are given, where it fails, if anywhere, and whether the state of a
   * failed run is lost, because saving it fails as well.
   */
  datatype Attempt = Attempt(inputs: Inputs, fault: Option<Fault>, lost: bool)

  function Reach(st: State, node: Node): State { st.(current := Some(node)) }

  function ToReview(st: State, reason: string): State {
    st.(reviewReason := Some(reason), status := ReviewRequired)
  }

  /** An insufficient context blocks routing for good; a sufficient one settles the open question about it. */
  function Evaluate(st: State): State {
    if st.context.None? then ToReview(st, "retrieval_context_missing")
    else if !st.context.value.sufficient then
      st.(blocked := true, warnings := Unique(st.warnings + ["retrieval_context_insufficient"]))
    else if st.facts.Some? then
      st.(facts := Some(st.facts.value.(missingInformation := Filter((m: string) => m != "routing_context",
        st.facts.value.missingInformation))))
    else st
  }

  /** The answer after post-processing, or the fallback, with the retrieval blocker applied. */
  function DecisionOutput(facts: Facts, blocked: bool, i: Inputs): Output {
    var o := if i.answer.Some? then Decided(i.answer.value, facts, i.signals)
             else Fallback(facts, i.signals, "decision_agent_gateway_failed");
    if blocked then
      o.(reviewRequired := true, reviewReasons := Unique(o.reviewReasons + ["retrieval_context_insufficient"]),
        classificationReview := true)
    else o
  }

  function GenerateDecision(st: State, i: Inputs): State {
    if st.facts.None? then ToReview(st, "facts_missing_before_decision")
    else if st.context.None? then ToReview(st, "retrieval_context_missing_before_decision")
    else
      var o := DecisionOutput(st.facts.value, st.blocked, i);
      var next := st.(output := Some(o), warnings := if i.answer.None?
        then st.warnings + ["decision_agent_gateway_failed"] else st.warnings);
      if o.reviewRequired then ToReview(next, "decision_review_required") else next
  }

  function ClassificationOf(o: Output): Classification {
    Classification(o.primaryType, o.secondaryTypes, o.confidence, o.reviewRequired)
  }

  /** The answer has been asked for, and nothing was stored of it. */
  function HalfGenerated(st: State, i: Inputs): State {
    if st.facts.Some? && st.context.Some? && i.answer.None?
      then st.(warnings := st.warnings + ["decision_agent_gateway_failed"]) else st
  }

  function DecisionFor(st: State, i: Inputs): Decision
    requires st.facts.Some? && st.output.Some? && st.context.Some?
  {
    Policy(i.settings, i.users, st.facts.value, ClassificationOf(st.output.value), st.context.value.selected)
  }

  /** `apply_decision`: a new decision takes the assignment back, whatever had become of it. */
  function Applied(st: State, d: Decision): State {
    st.(assignment := Some(Assignment(d.selected, if d.autoAssign then Assigned else InReview)))
  }

  function GenerateCandidates(st: State, i: Inputs): State {
    if st.facts.None? then ToReview(st, "facts_missing_before_routing")
    else if st.output.None? || st.context.None? then ToReview(st, "decision_or_retrieval_missing_before_routing")
    else
      var decision := DecisionFor(st, i);
      var next := st.(routing := Some(decision));
      if !decision.autoAssign then ToReview(Applied(next, decision), "routing_policy_review_required")
      else if st.reviewReason == Some("attachment_analysis_incomplete") then
        next.(warnings := Unique(st.warnings + ["attachment_analysis_incomplete"]), reviewReason := None,
          status := AutoAssigned)
      else next.(status := AutoAssigned)
  }

  function HalfRouted(st: State, i: Inputs): State {
    if st.facts.Some? && st.output.Some? && st.context.Some? then st.(routing := Some(DecisionFor(st, i))) else st
  }

  function Validate(st: State): State {
    if st.routing.None? then ToReview(st, "routing_decision_missing")
    else if !st.routing.value.autoAssign || st.routing.value.selected.None?
      then ToReview(st, "routing_decision_not_auto_assignable")
    else st
  }

  predicate Forwards(d: Decision) { d.autoAssign && d.selected.Some? }

  function Persist(st: State): State
    requires st.routing.Some?
  {
    var d := st.routing.value;
    var applied := Applied(st, d).(assignee := Some(d.selected));
    if Forwards(d) then
      applied.(forwarded := st.forwarded + [d.selected.value], assignment := Some(Assignment(d.selected, Forwarded)))
    else applied
  }

  function HalfStored(st: State): State { if st.routing.Some? then Applied(st, st.routing.value) else st }

  /** What the preparing nodes make of the state; without facts there is nothing to plan a retrieval from. */
  function Prepares(st: State, i: Inputs): State {
    var p := i.prepared;
    var next := st.(facts := p.facts, context := p.context, reviewReason := p.reviewReason, warnings := p.warnings);
    if p.facts.None? then ToReview(next, "facts_missing_before_retrieval") else next
  }

  function HalfPrepared(st: State, i: Inputs): State {
    var p := i.prepared;
    st.(facts := p.facts, context := p.context, reviewReason := p.reviewReason, warnings := p.warnings)
  }

  /**
   * The store node raises by itself without a decision, and when the mail has been forwarded: the key of the
   * notification is unique.
   */
  predicate Refuses(st: State) { st.routing.None? || (Forwards(st.routing.value) && st.forwarded != []) }

  /** What the handler of a node makes of the state. */
  function Handle(node: Node, st: State, i: Inputs): State
    requires node == Store ==> !Refuses(st)
  {
    match node
    case Prepare => Prepares(st, i)
    case EvaluateContext => Evaluate(st)
    case Generate => GenerateDecision(st, i)
    case Route => GenerateCandidates(st, i)
    case Check => Validate(st)
    case Store => Persist(st)
  }

  /** What it leaves when it raises halfway. */
  function Half(node: Node, st: State, i: Inputs): State {
    match node
    case Prepare => HalfPrepared(st, i)
    case EvaluateContext => st
    case Generate => HalfGenerated(st, i)
    case Route => HalfRouted(st, i)
    case Check => st
    case Store => HalfStored(st)
  }

  predicate Raises(node: Node, st: State, a: Attempt) {
    a.fault == Some(At(node, Within)) || (node == Store && Refuses(st))
  }

  function StartIndex(current: Option<Node>): (k: nat)
    ensures k < |SEQUENCE|
  {
    match current
    case None => 0
    case Some(Prepare) => 0
    case Some(EvaluateContext) => 1
    case Some(Generate) => 2
    case Some(Route) => 3
    case Some(Check) => 4
    case Some(Store) => 5
  }

  function Finished(st: State): State { st.(status := Completed, current := None) }

  /** What is stored of a failed run: its state, or the one saved last; the tables in either case. */
  function Fails(st: State, saved: State, a: Attempt): State {
    if a.lost then saved.(assignment := st.assignment, forwarded := st.forwarded) else st.(status := Status.Failed)
  }

  /** The orchestrator from node `k` on: it stops at a node that asks for review or raises. */
  function RunFrom(st: State, saved: State, k: nat, a: Attempt): State
    requires k <= |SEQUENCE|
    decreases |SEQUENCE| - k
  {
    if k == |SEQUENCE| then
      if a.fault == Some(End) then Fails(Finished(st), saved, a) else Finished(st)
    else
      var at := Reach(st, SEQUENCE[k]);
      if a.fault == Some(At(SEQUENCE[k], Before)) then Fails(at, saved, a)
      else if Raises(SEQUENCE[k], at, a) then Fails(Half(SEQUENCE[k], at, a.inputs), saved, a)
      else
        var next := Handle(SEQUENCE[k], at, a.inputs);
        if a.fault == Some(At(SEQUENCE[k], Behind)) then Fails(next, saved, a)
        else if next.status == ReviewRequired then next
        else RunFrom(next, next, k + 1, a)
  }

  /** A run starts at the stored node, the first one when there is none. */
  function RunNodes(st: State, a: Attempt): State {
    if a.fault == Some(Begin) then st
    else
      var started := st.(status := Running);
      RunFrom(started, started, StartIndex(st.current), a)
  }

  /** Resuming any number of times; a completed run is left alone. */
  function Attempts(st: State, attempts: seq<Attempt>): State {
    if attempts == [] then st
    else
      var before := Attempts(st, attempts[..|attempts| - 1]);
      if before.status == Completed then before else RunNodes(before, attempts[|attempts| - 1])
  }

  class RunState {
    var current: Option<Node>
    var facts: Option<Facts>
    var context: Option<Context>
    var blocked: bool
    var output: Option<Output>
    var routing: Option<Decision>
    var reviewReason: Option<string>
    var warnings: seq<string>
    var status: Status
    var assignee: Option<Option<string>>
    var assignment: Option<Assignment>
    var forwarded: seq<string>

    constructor (st: State)
      ensures Value() == st
    {
      current, facts, context, blocked := st.current, st.facts, st.context, st.blocked;
      output, routing := st.output, st.routing;
      reviewReason, warnings, status := st.reviewReason, st.warnings, st.status;
      assignee, assignment, forwarded := st.assignee, st.assignment, st.forwarded;
    }

    function Value(): State
      reads this
    {
      State(current, facts, context, blocked, output, routing, reviewReason, warnings, status, assignee, assignment,
        forwarded)
    }

    method MarkReview(reason: string)
      modifies this`reviewReason, this`status
      ensures Value() == ToReview(old(Value()), reason)
    {
      reviewReason := Some(reason);
      status := ReviewRequired;
    }

    method PrepareContext(i: Inputs, crash: bool)
      modifies this
      ensures Value() == if crash then HalfPrepared(old(Value()), i) else Prepares(old(Value()), i)
    {
      facts, context, reviewReason, warnings :=
        i.prepared.facts, i.prepared.context, i.prepared.reviewReason, i.prepared.warnings;
      if !crash && facts.None? {
        MarkReview("facts_missing_before_retrieval");
      }
    }

    /**
     * Review without a stored context, a block on an insufficient one; answer, routing and the tables stay as they are.
     */
    method EvaluateStored()
      modifies this
      ensures Value() == Evaluate(old(Value()))
      ensures status == ReviewRequired <==> old(context).None? || old(status) == ReviewRequired
      ensures blocked <==> old(blocked) || (old(context).Some? && !old(context).value.sufficient)
      ensures context == old(context) && output == old(output) && routing == old(routing) && assignee == old(assignee)
      ensures assignment == old(assignment) && forwarded == old(forwarded)
    {
      hide Unique, Filter;
      if context.None? {
        MarkReview("retrieval_context_missing");
        return;
      }
      if !context.value.sufficient {
        blocked := true;
        warnings := Unique(warnings + ["retrieval_context_insufficient"]);
        return;
      }
      if facts.Some? {
        facts := Some(facts.value.(missingInformation := Filter((m: string) => m != "routing_context",
          facts.value.missingInformation)));
      }
    }

    /** The agent's answer, or the fallback when the agent fails, with the retrieval blocker applied. */
    method Answer(f: Facts, i: Inputs) returns (o: AgentOutput)
      modifies this`warnings
      ensures fresh(o)
      ensures o.Value() == DecisionOutput(f, blocked, i)
      ensures warnings == if i.answer.None? then old(warnings) + ["decision_agent_gateway_failed"] else old(warnings)
    {
      hide Decided, Fallback, Unique;
      if i.answer.Some? {
        o := new AgentOutput(i.answer.value);
        o.PostProcess(f, i.signals);
      } else {
        warnings := warnings + ["decision_agent_gateway_failed"];
        o := new AgentOutput(Fallback(f, i.signals, "decision_agent_gateway_failed"));
      }
      if blocked {
        o.reviewRequired := true;
        o.reviewReasons := Unique(o.reviewReasons + ["retrieval_context_insufficient"]);
        o.classificationReview := true;
      }
    }

    method Decide(i: Inputs, crash: bool)
      modifies this
      ensures Value() == if crash then HalfGenerated(old(Value()), i) else GenerateDecision(old(Value()), i)
    {
      hide DecisionOutput;
      if facts.None? || context.None? {
        if !crash {
          MarkReview(if facts.None? then "facts_missing_before_decision"
            else "retrieval_context_missing_before_decision");
        }
        return;
      }
      var o := Answer(facts.value, i);
      if crash {
        return;
      }
      output := Some(o.Value());
      if o.reviewRequired {
        MarkReview("decision_review_required");
      }
    }

    method ApplyDecision(d: Decision)
      modifies this`assignment
      ensures Value() == Applied(old(Value()), d)
    {
      assignment := Some(Assignment(d.selected, if d.autoAssign then Assigned else InReview));
    }

    method Rank(i: Inputs, crash: bool)
      requires forall k :: 0 <= k < |i.users| ==> i.users[k].id != ""
      modifies this
      ensures Value() == if crash then HalfRouted(old(Value()), i) else GenerateCandidates(old(Value()), i)
    {
      hide Policy, Unique;
      if facts.None? || output.None? || context.None? {
        if !crash {
          MarkReview(if facts.None? then "facts_missing_before_routing"
            else "decision_or_retrieval_missing_before_routing");
        }
        return;
      }
      var decision := Score(i.settings, i.users, facts.value, ClassificationOf(output.value), context.value.selected);
      routing := Some(decision);
      if crash {
        return;
      }
      if !decision.autoAssign {
        ApplyDecision(decision);
        MarkReview("routing_policy_review_required");
        return;
      }
      if reviewReason == Some("attachment_analysis_incomplete") {
        warnings := Unique(warnings + ["attachment_analysis_incomplete"]);
        reviewReason := None;
      }
      status := AutoAssigned;
    }

    method CheckDecision()
      modifies this
      ensures Value() == Validate(old(Value()))
    {
      if routing.None? {
        MarkReview("routing_decision_missing");
        return;
      }
      if !routing.value.autoAssign || routing.value.selected.None? {
        MarkReview("routing_decision_not_auto_assignable");
      }
    }

    /** Raises without a decision, when told to, and when a notification has the mail's key already. */
    method PersistResult(crash: bool) returns (raised: bool)
      modifies this
      ensures raised == (crash || Refuses(old(Value())))
      ensures Value() == if raised then HalfStored(old(Value())) else Persist(old(Value()))
    {
      if routing.None? {
        return true;
      }
      var d := routing.value;
      ApplyDecision(d);
      if crash {
        return true;
      }
      if d.autoAssign && d.selected.Some? {
        if forwarded != [] {
          return true;
        }
        forwarded := forwarded + [d.selected.value];
        assignment := Some(Assignment(d.selected, Forwarded));
      }
      assignee := Some(d.selected);
      return false;
    }

    method HandleNode(node: Node, i: Inputs, crash: bool) returns (raised: bool)
      requires forall k :: 0 <= k < |i.users| ==> i.users[k].id != ""
      modifies this
      ensures raised == (crash || (node == Store && Refuses(old(Value()))))
      ensures Value() == if raised then Half(node, old(Value()), i) else Handle(node, old(Value()), i)
    {
      hide Evaluate, GenerateDecision, GenerateCandidates, Validate, Persist, HalfGenerated, HalfRouted, HalfStored,
        Prepares, HalfPrepared, Refuses;
      raised := crash;
      match node
      case Prepare => PrepareContext(i, crash);
      case EvaluateContext => if !crash { EvaluateStored(); }
      case Generate => Decide(i, crash);
      case Route => Rank(i, crash);
      case Check => if !crash { CheckDecision(); }
      case Store => raised := PersistResult(crash);
    }

    /** What is stored at the end; `saved` is what was stored last. */
    method Run(a: Attempt) returns (saved: State)
      requires forall k :: 0 <= k < |a.inputs.users| ==> a.inputs.users[k].id != ""
      modifies this
      ensures saved == RunNodes(old(Value()), a)
    {
      hide Handle, Half, Refuses;
      saved := Value();
      if a.fault == Some(Begin) {
        return;
      }
      status := Running;
      saved := Value();
      var k := StartIndex(current);
      while k < |SEQUENCE|
        invariant k <= |SEQUENCE|
        invariant RunNodes(old(Value()), a) == RunFrom(Value(), saved, k, a)
      {
        var node := SEQUENCE[k];
        current := Some(node);
        if a.fault == Some(At(node, Before)) {
          saved := Fail(saved, a);
          return;
        }
        var raised := HandleNode(node, a.inputs, a.fault == Some(At(node, Within)));
        if raised || a.fault == Some(At(node, Behind)) {
          saved := Fail(saved, a);
          return;
        }
        saved := Value();
        if status == ReviewRequired {
          return;
        }
        k := k + 1;
      }
      status := Completed;
      current := None;
      if a.fault == Some(End) {
        saved := Fail(saved, a);
        return;
      }
      saved := Value();
    }

    method Fail(saved: State, a: Attempt) returns (stored: State)
      modifies this`status
      ensures stored == Fails(old(Value()), saved, a)
    {
      status := Status.Failed;
      stored := if a.lost then saved.(assignment := assignment, forwarded := forwarded) else Value();
    }
  }
}
