/** What the decision agent does to the model's answer before anything is routed on it. */
module DecisionAgent {
  import opened MailSchemas
  import opened RoutingPolicy

  const ALLOWED_PRIMARY_TYPES := {
    "quotation_request", "quotation_followup", "purchase_order", "order_change", "order_cancellation",
    "delivery_confirmation", "delivery_delay", "technical_inquiry", "drawing_review",
    "specification_review", "compatibility_check", "service_request", "repair_request", "claim",
    "urgent_failure", "invoice", "payment_inquiry", "certificate_request", "general_inquiry", "spam"}

  datatype Axis = Axis(high: bool, confidence: real, reasons: seq<string>)
  datatype Quadrant = UrgentImportant | Urgent | Important | Normal

  /** The agent's output without its prose. `classificationReview` is the flag inside the classification. */
  datatype Output = Output(
    primaryType: string, secondaryTypes: seq<string>, businessArea: string, scores: map<string, real>, confidence: real,
    classificationReview: bool, urgency: Axis, importance: Axis, quadrant: Quadrant,
    unsupportedClaims: seq<string>, reviewRequired: bool, reviewReasons: seq<string>)

  /** `list(dict.fromkeys(values))` */
  function Unique(values: seq<string>): (r: seq<string>)
  {
    if values == [] then [] else
    var before, last := Unique(values[..|values| - 1]), values[|values| - 1];
    if last in before then before else before + [last]
  }

  /** Duplicates go, first occurrences stay. */
  lemma {:induction false} UniqueKeepsElements(values: seq<string>)
    ensures forall v :: v in Unique(values) <==> v in values
    ensures forall i, j :: 0 <= i < j < |Unique(values)| ==> Unique(values)[i] != Unique(values)[j]
  {
    if values != [] {
      UniqueKeepsElements(values[..|values| - 1]);
      assert values == values[..|values| - 1] + [values[|values| - 1]];
    }
  }

  function GroundedTypes(types: seq<string>): seq<string> {
    if types == [] then []
    else GroundedTypes(types[..|types| - 1]) + if types[|types| - 1] in ALLOWED_PRIMARY_TYPES then [types[|types| - 1]]
      else []
  }

  function BusinessArea(primaryType: string): string {
    if primaryType in {"quotation_request", "quotation_followup"} then "sales"
    else if primaryType in {"purchase_order", "order_change", "order_cancellation", "delivery_confirmation",
      "delivery_delay"} then "order"
    else if primaryType in {"technical_inquiry", "drawing_review", "specification_review", "compatibility_check"}
      then "technical"
    else if primaryType in {"service_request", "repair_request", "claim", "urgent_failure"} then "service"
    else if primaryType in {"invoice", "payment_inquiry"} then "finance"
    else "general"
  }

  function QuadrantFor(urgency: Axis, importance: Axis): Quadrant {
    if urgency.high && importance.high then UrgentImportant
    else if urgency.high then Urgent else if importance.high then Important else Normal
  }

  function Filter(p: string -> bool, values: seq<string>): seq<string> {
    if values == [] then []
    else Filter(p, values[..|values| - 1]) + if p(values[|values| - 1]) then [values[|values| - 1]] else []
  }

  function FirstThree(values: seq<string>): seq<string> { if |values| <= 3 then values else values[..3] }

  /** A high level stands only on a signal that supports it; `supports` is the pattern test of the axis. */
  function Ground(axis: Axis, signals: seq<string>, supports: string -> bool): Axis {
    var grounded := Filter(supports, signals);
    if axis.high && grounded == [] then
      Axis(false, if axis.confidence <= 0.64 then axis.confidence else 0.64, Unique(FirstThree(signals)))
    else
      var reasons := if axis.high then grounded else if axis.reasons != [] then axis.reasons else signals;
      Axis(axis.high, axis.confidence, Unique(reasons))
  }

  datatype Signals = Signals(urgent: string -> bool, important: string -> bool)

  // ----- the steps of decide, as functions of the output -----

  function Flagged(o: Output, condition: bool, reason: string): Output {
    if condition then o.(reviewRequired := true, reviewReasons := o.reviewReasons + [reason]) else o
  }

  function MaxScore(o: Output, type_: string): real {
    var old_ := if type_ in o.scores then o.scores[type_] else 0.0;
    if o.confidence >= old_ then o.confidence else old_
  }

  /** When exactly one allowed type is grounded in the mail, it replaces any other choice. */
  function Aligned(o: Output, facts: Facts): Output {
    var grounded := GroundedTypes(facts.requestTypes);
    if |grounded| == 1 && o.primaryType != grounded[0] then
      Flagged(o.(primaryType := grounded[0], businessArea := BusinessArea(grounded[0]),
        scores := o.scores[grounded[0] := MaxScore(o, grounded[0])]),
              true, "classification_aligned_to_grounded_mail_facts")
    else o
  }

  function Checked(o: Output, facts: Facts): Output {
    Flagged(Flagged(Flagged(o,
      o.confidence < 0.78, "classification_confidence_below_threshold"),
      facts.contradictions != [], "fact_contradictions_present"),
      o.unsupportedClaims != [], "unsupported_claims_present")
  }

  function Decided(o: Output, facts: Facts, s: Signals): Output {
    var checked := Checked(Aligned(o.(quadrant := QuadrantFor(o.urgency, o.importance)), facts), facts);
    var urgency := Ground(checked.urgency, facts.urgencySignals, s.urgent);
    var importance := Ground(checked.importance, facts.importanceSignals, s.important);
    checked.(reviewReasons := Unique(checked.reviewReasons), urgency := urgency, importance := importance,
      quadrant := QuadrantFor(urgency, importance))
  }

  /** The output when the model is unavailable. */
  function Fallback(facts: Facts, s: Signals, reason: string): Output {
    var grounded := GroundedTypes(facts.requestTypes);
    var primary := if grounded != [] then grounded[0] else "general_inquiry";
    var urgency := FallbackAxis(facts.urgencySignals, s.urgent);
    var importance := FallbackAxis(facts.importanceSignals, s.important);
    Output(primary, [], BusinessArea(primary), map[primary := 0.45], 0.45, true, urgency, importance,
           QuadrantFor(urgency, importance), [], true, Unique([reason, "llm_decision_unavailable"]))
  }

  function FallbackAxis(signals: seq<string>, supports: string -> bool): Axis {
    var high := Filter(supports, signals);
    Axis(high != [], if high != [] then 0.72 else 0.62, Unique(if high != [] then high else FirstThree(signals)))
  }

  // ----- the program: the output object is updated step by step -----

  class AgentOutput {
    var primaryType: string
    var secondaryTypes: seq<string>
    var businessArea: string
    var scores: map<string, real>
    var confidence: real
    var classificationReview: bool
    var urgency: Axis
    var importance: Axis
    var quadrant: Quadrant
    var unsupportedClaims: seq<string>
    var reviewRequired: bool
    var reviewReasons: seq<string>

    constructor (o: Output)
      ensures Value() == o
    {
      primaryType, secondaryTypes, businessArea, scores, confidence :=
        o.primaryType, o.secondaryTypes, o.businessArea, o.scores, o.confidence;
      classificationReview, urgency, importance, quadrant :=
        o.classificationReview, o.urgency, o.importance, o.quadrant;
      unsupportedClaims, reviewRequired, reviewReasons := o.unsupportedClaims, o.reviewRequired, o.reviewReasons;
    }

    function Value(): Output
      reads this
    {
      Output(primaryType, secondaryTypes, businessArea, scores, confidence, classificationReview, urgency, importance,
        quadrant,
             unsupportedClaims, reviewRequired, reviewReasons)
    }

    method AlignToGroundedType(facts: Facts)
      modifies this
      ensures Value() == Aligned(old(Value()), facts)
    {
      hide GroundedTypes, BusinessArea;
      var groundedTypes := GroundedTypes(facts.requestTypes);
      if |groundedTypes| == 1 && primaryType != groundedTypes[0] {
        var groundedType := groundedTypes[0];
        scores := scores[groundedType := MaxScore(Value(), groundedType)];
        primaryType := groundedType;
        businessArea := BusinessArea(groundedType);
        reviewRequired := true;
        reviewReasons := reviewReasons + ["classification_aligned_to_grounded_mail_facts"];
      }
    }

    method Require(condition: bool, reason: string)
      modifies this`reviewRequired, this`reviewReasons
      ensures Value() == Flagged(old(Value()), condition, reason)
    {
      if condition {
        reviewRequired := true;
        reviewReasons := reviewReasons + [reason];
      }
    }

    method CheckReview(facts: Facts)
      modifies this
      ensures Value() == Checked(old(Value()), facts)
    {
      Require(confidence < 0.78, "classification_confidence_below_threshold");
      Require(facts.contradictions != [], "fact_contradictions_present");
      Require(unsupportedClaims != [], "unsupported_claims_present");
    }

    /** Everything `decide` does to the model's answer that later nodes read. */
    method PostProcess(facts: Facts, s: Signals)
      modifies this
      ensures Value() == Decided(old(Value()), facts, s)
    {
      hide Aligned, Checked, Ground, Unique;
      quadrant := QuadrantFor(urgency, importance);
      AlignToGroundedType(facts);
      CheckReview(facts);
      reviewReasons := Unique(reviewReasons);
      urgency := Ground(urgency, facts.urgencySignals, s.urgent);
      importance := Ground(importance, facts.importanceSignals, s.important);
      quadrant := QuadrantFor(urgency, importance);
    }
  }

  // ----- what holds of every output -----

  lemma AlignedFields(o: Output, facts: Facts)
    ensures var a, grounded := Aligned(o, facts), GroundedTypes(facts.requestTypes);
      && a.confidence == o.confidence && a.unsupportedClaims == o.unsupportedClaims && a.urgency == o.urgency
        && a.importance == o.importance
      && (|grounded| == 1 ==> a.primaryType == grounded[0])
      && (a.reviewRequired <==> o.reviewRequired || (|grounded| == 1 && o.primaryType != grounded[0]))
  {
    hide GroundedTypes, BusinessArea, MaxScore;
  }

  lemma CheckedFields(o: Output, facts: Facts)
    ensures var c := Checked(o, facts);
      && c.confidence == o.confidence && c.primaryType == o.primaryType && c.urgency == o.urgency
        && c.importance == o.importance
      && (c.reviewRequired <==> o.reviewRequired || o.confidence < 0.78 || facts.contradictions != []
                                || o.unsupportedClaims != [])
  {
  }

  lemma DecidedFields(o: Output, facts: Facts, s: Signals)
    ensures var d := Decided(o, facts, s);
      var c := Checked(Aligned(o.(quadrant := QuadrantFor(o.urgency, o.importance)), facts), facts);
      && d.confidence == c.confidence && d.primaryType == c.primaryType && d.reviewRequired == c.reviewRequired
      && d.urgency == Ground(c.urgency, facts.urgencySignals, s.urgent)
        && d.importance == Ground(c.importance, facts.importanceSignals, s.important)
  {
    hide Aligned, Checked, Ground, Unique;
  }

  /**
   * The answer passes without review exactly when the model asked for none, was confident, made no unsupported claim,
   * the facts do not contradict each other, and it chose the one grounded type if there is exactly one.
   */
  lemma {:induction false} ReviewExactly(o: Output, facts: Facts, s: Signals)
    ensures var grounded := GroundedTypes(facts.requestTypes);
      !Decided(o, facts, s).reviewRequired <==>
        && !o.reviewRequired && o.confidence >= 0.78 && facts.contradictions == [] && o.unsupportedClaims == []
        && (|grounded| == 1 ==> o.primaryType == grounded[0])
    ensures Decided(o, facts, s).confidence == o.confidence
    ensures |GroundedTypes(facts.requestTypes)| == 1
      ==> Decided(o, facts, s).primaryType == GroundedTypes(facts.requestTypes)[0]
  {
    var o1 := o.(quadrant := QuadrantFor(o.urgency, o.importance));
    DecidedFields(o, facts, s);
    AlignedFields(o1, facts);
    CheckedFields(Aligned(o1, facts), facts);
    hide *;
  }

  lemma {:induction false} FilterSound(p: string -> bool, values: seq<string>)
    ensures forall v :: v in Filter(p, values) <==> v in values && p(v)
  {
    if values != [] {
      FilterSound(p, values[..|values| - 1]);
      assert values == values[..|values| - 1] + [values[|values| - 1]];
    }
  }

  lemma GroundHigh(axis: Axis, signals: seq<string>, supports: string -> bool)
    ensures Ground(axis, signals, supports).high <==> axis.high && exists v :: v in signals && supports(v)
  {
    FilterSound(supports, signals);
    hide Filter, Unique;
    var f := Filter(supports, signals);
    assert f != [] ==> f[0] in f;
  }

  /**
   * A decision is urgent exactly when the model said so and a signal of the mail supports it; likewise for importance.
   */
  lemma HighIsGrounded(o: Output, facts: Facts, s: Signals)
    ensures Decided(o, facts, s).urgency.high
      <==> o.urgency.high && exists v :: v in facts.urgencySignals && s.urgent(v)
    ensures Decided(o, facts, s).importance.high
      <==> o.importance.high && exists v :: v in facts.importanceSignals && s.important(v)
  {
    var o1 := o.(quadrant := QuadrantFor(o.urgency, o.importance));
    DecidedFields(o, facts, s);
    AlignedFields(o1, facts);
    CheckedFields(Aligned(o1, facts), facts);
    GroundHigh(o.urgency, facts.urgencySignals, s.urgent);
    GroundHigh(o.importance, facts.importanceSignals, s.important);
    hide *;
  }
}
