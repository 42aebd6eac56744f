/** Classification quality computed twice: macro F1 over label lists, and per-type F1 from a confusion matrix. */
module EvaluationMetrics {

  /** A case's expected and predicted business type; a missing prediction is the label `""`. */
  datatype Case = Case(expected: string, predicted: string)

  type Matrix = map<string, map<string, nat>>

  function SafeDiv(a: real, b: real): real { if b == 0.0 then 0.0 else a / b }

  // ----- counting -----

  function Count(cases: seq<Case>, e: string, p: string): nat {
    if cases == [] then 0
    else Count(cases[..|cases| - 1], e, p) + if cases[|cases| - 1] == Case(e, p) then 1 else 0
  }

  /** Predicted `l` where something else was expected. */
  function FalsePositives(cases: seq<Case>, l: string): nat {
    if cases == [] then 0 else
    var c := cases[|cases| - 1];
    FalsePositives(cases[..|cases| - 1], l) + if c.expected != l && c.predicted == l then 1 else 0
  }

  function FalseNegatives(cases: seq<Case>, l: string): nat {
    if cases == [] then 0 else
    var c := cases[|cases| - 1];
    FalseNegatives(cases[..|cases| - 1], l) + if c.expected == l && c.predicted != l then 1 else 0
  }

  function Hits(cases: seq<Case>): nat {
    if cases == [] then 0 else
    Hits(cases[..|cases| - 1]) + if cases[|cases| - 1].expected == cases[|cases| - 1].predicted then 1 else 0
  }

  /** A duplicate-free listing of the labels that occur. */
  ghost predicate Lists(labels: seq<string>, cases: seq<Case>) {
    && (forall i, j :: 0 <= i < j < |labels| ==> labels[i] != labels[j])
    && (forall i :: 0 <= i < |cases| ==> cases[i].expected in labels && cases[i].predicted in labels)
  }

  // ----- scores -----

  function Precision(tp: nat, fp: nat): real { SafeDiv(tp as real, (tp + fp) as real) }

  function Times(p: real, r: real): real { p * r }

  /** The harmonic mean. */
  function Combine(p: real, r: real): real { SafeDiv(2.0 * Times(p, r), p + r) }

  function F1(tp: nat, fp: nat, fn: nat): real { Combine(Precision(tp, fp), Precision(tp, fn)) }

  function F1Of(cases: seq<Case>, l: string): real {
    F1(Count(cases, l, l), FalsePositives(cases, l), FalseNegatives(cases, l))
  }

  function SumF1(cases: seq<Case>, labels: seq<string>): real {
    if labels == [] then 0.0 else SumF1(cases, labels[..|labels| - 1]) + F1Of(cases, labels[|labels| - 1])
  }

  // ----- sums over the matrix -----

  function Cell(m: Matrix, e: string, p: string): nat {
    if e in m && p in m[e] then m[e][p] else 0
  }

  /** `sum(matrix[other][l] for other in labels if other != l)`; with `skip` false, the whole column. */
  function ColumnSum(m: Matrix, labels: seq<string>, l: string, skip: bool): nat {
    if labels == [] then 0 else
    var other := labels[|labels| - 1];
    ColumnSum(m, labels[..|labels| - 1], l, skip) + if skip && other == l then 0 else Cell(m, other, l)
  }

  function RowSum(m: Matrix, labels: seq<string>, l: string, skip: bool): nat {
    if labels == [] then 0 else
    var other := labels[|labels| - 1];
    RowSum(m, labels[..|labels| - 1], l, skip) + if skip && other == l then 0 else Cell(m, l, other)
  }

  function MatrixF1(m: Matrix, labels: seq<string>, l: string): real {
    F1(Cell(m, l, l), ColumnSum(m, labels, l, true), RowSum(m, labels, l, true))
  }

  ghost predicate Shaped(m: Matrix, labels: seq<string>) {
    && (forall e :: e in m <==> e in labels)
    && (forall e, p :: e in m ==> (p in m[e] <==> p in labels))
  }

  ghost predicate Holds(m: Matrix, labels: seq<string>, cases: seq<Case>) {
    forall e, p :: e in labels && p in labels ==> Cell(m, e, p) == Count(cases, e, p)
  }

  /** A square matrix over the labels whose cells count the cases. */
  ghost predicate Tabulates(m: Matrix, labels: seq<string>, cases: seq<Case>) {
    Shaped(m, labels) && Holds(m, labels, cases)
  }

  // ----- the two programs -----

  method MacroF1(cases: seq<Case>, labels: seq<string>) returns (score: real)
    ensures score == SafeDiv(SumF1(cases, labels), |labels| as real)
  {
    var total := 0.0;
    for i := 0 to |labels|
      invariant total == SumF1(cases, labels[..i])
    {
      var l := labels[i];
      assert labels[..i + 1][..i] == labels[..i];
      var tp, fp, fn := 0, 0, 0;
      for k := 0 to |cases|
        invariant tp == Count(cases[..k], l, l)
        invariant fp == FalsePositives(cases[..k], l)
        invariant fn == FalseNegatives(cases[..k], l)
      {
        assert cases[..k + 1][..k] == cases[..k];
        var c := cases[k];
        tp := tp + if c.expected == l && c.predicted == l then 1 else 0;
        fp := fp + if c.expected != l && c.predicted == l then 1 else 0;
        fn := fn + if c.expected == l && c.predicted != l then 1 else 0;
      }
      assert cases[..|cases|] == cases;
      total := total + F1(tp, fp, fn);
    }
    assert labels[..|labels|] == labels;
    score := SafeDiv(total, |labels| as real);
  }

  function Bump(m: Matrix, c: Case): Matrix
    requires c.expected in m && c.predicted in m[c.expected]
  {
    m[c.expected := m[c.expected][c.predicted := m[c.expected][c.predicted] + 1]]
  }

  lemma EmptyMatrix(labels: seq<string>)
    ensures Tabulates(map l | l in labels :: map k | k in labels :: 0, labels, [])
  {
  }

  lemma CountSnoc(cases: seq<Case>, c: Case, e: string, p: string)
    ensures Count(cases + [c], e, p) == Count(cases, e, p) + if c == Case(e, p) then 1 else 0
  {
    assert (cases + [c])[..|cases|] == cases;
  }

  lemma BumpTabulates(m: Matrix, labels: seq<string>, cases: seq<Case>, c: Case)
    requires Tabulates(m, labels, cases) && c.expected in labels && c.predicted in labels
    ensures Tabulates(Bump(m, c), labels, cases + [c])
  {
    hide Count;
    var m' := Bump(m, c);
    BumpCells(m, c);
    assert Holds(m', labels, cases + [c]) by {
      forall e, p | e in labels && p in labels ensures Cell(m', e, p) == Count(cases + [c], e, p) {
        CountSnoc(cases, c, e, p);
        assert Cell(m, e, p) == Count(cases, e, p);
      }
    }
  }

  lemma BumpCells(m: Matrix, c: Case)
    requires c.expected in m && c.predicted in m[c.expected]
    ensures forall e, p :: Cell(Bump(m, c), e, p) == Cell(m, e, p) + if c == Case(e, p) then 1 else 0
  {
  }

  method Confusion(cases: seq<Case>, labels: seq<string>) returns (m: Matrix)
    requires Lists(labels, cases)
    ensures Tabulates(m, labels, cases)
  {
    hide Holds;
    EmptyMatrix(labels);
    m := map l | l in labels :: map k | k in labels :: 0;
    for i := 0 to |cases|
      invariant Tabulates(m, labels, cases[..i])
    {
      var c := cases[i];
      BumpTabulates(m, labels, cases[..i], c);
      assert cases[..i + 1] == cases[..i] + [c];
      var row := m[c.expected];
      m := m[c.expected := row[c.predicted := row[c.predicted] + 1]];
    }
    assert cases[..|cases|] == cases;
  }

  method PerTypeF1(cases: seq<Case>, labels: seq<string>) returns (m: Matrix, f1: map<string, real>)
    requires Lists(labels, cases)
    ensures Tabulates(m, labels, cases)
    ensures forall l :: l in f1 <==> l in labels
    ensures forall l :: l in labels ==> f1[l] == MatrixF1(m, labels, l)
  {
    m := Confusion(cases, labels);
    f1 := map[];
    for i := 0 to |labels|
      invariant forall l :: l in f1 <==> l in labels[..i]
      invariant forall l :: l in labels[..i] ==> f1[l] == MatrixF1(m, labels, l)
    {
      var l := labels[i];
      f1 := f1[l := F1(Cell(m, l, l), ColumnSum(m, labels, l, true), RowSum(m, labels, l, true))];
    }
    assert labels[..|labels|] == labels;
  }

  // ----- the matrix holds the counts -----

  function Bit(b: bool): nat { if b then 1 else 0 }

  /** The cases expected as `l`, or predicted as `l`. */
  function Expected(cases: seq<Case>, l: string): nat {
    if cases == [] then 0 else Expected(cases[..|cases| - 1], l) + Bit(cases[|cases| - 1].expected == l)
  }

  function Predicted(cases: seq<Case>, l: string): nat {
    if cases == [] then 0 else Predicted(cases[..|cases| - 1], l) + Bit(cases[|cases| - 1].predicted == l)
  }

  /** A column of counts, summed over some of the labels. */
  function Column(cases: seq<Case>, labels: seq<string>, l: string, skip: bool): nat {
    if labels == [] then 0 else
    var other := labels[|labels| - 1];
    Column(cases, labels[..|labels| - 1], l, skip) + if skip && other == l then 0 else Count(cases, other, l)
  }

  function Row(cases: seq<Case>, labels: seq<string>, l: string, skip: bool): nat {
    if labels == [] then 0 else
    var other := labels[|labels| - 1];
    Row(cases, labels[..|labels| - 1], l, skip) + if skip && other == l then 0 else Count(cases, l, other)
  }

  ghost predicate Distinct(labels: seq<string>) { forall i, j :: 0 <= i < j < |labels| ==> labels[i] != labels[j] }

  /** One more case adds one to the cell it names, so at most one to a column. */
  lemma {:induction false} ColumnSnoc(cases: seq<Case>, c: Case, labels: seq<string>, l: string, skip: bool)
    requires Distinct(labels)
    ensures Column(cases + [c], labels, l, skip)
         == Column(cases, labels, l, skip) + Bit(c.predicted == l && c.expected in labels && !(skip && c.expected == l))
  {
    if labels != [] {
      var n := |labels| - 1;
      ColumnSnoc(cases, c, labels[..n], l, skip);
      CountSnoc(cases, c, labels[n], l);
      LastIsNew(labels);
      hide Count;
    }
  }

  lemma {:induction false} RowSnoc(cases: seq<Case>, c: Case, labels: seq<string>, l: string, skip: bool)
    requires Distinct(labels)
    ensures Row(cases + [c], labels, l, skip)
         == Row(cases, labels, l, skip) + Bit(c.expected == l && c.predicted in labels && !(skip && c.predicted == l))
  {
    if labels != [] {
      var n := |labels| - 1;
      RowSnoc(cases, c, labels[..n], l, skip);
      CountSnoc(cases, c, l, labels[n]);
      LastIsNew(labels);
      hide Count;
    }
  }

  lemma LastIsNew(labels: seq<string>)
    requires labels != [] && Distinct(labels)
    ensures labels[|labels| - 1] !in labels[..|labels| - 1]
    ensures forall l :: l in labels <==> l in labels[..|labels| - 1] || l == labels[|labels| - 1]
  {
    assert labels == labels[..|labels| - 1] + [labels[|labels| - 1]];
  }

  lemma {:induction false} EmptySums(labels: seq<string>, l: string, skip: bool)
    ensures Column([], labels, l, skip) == 0 && Row([], labels, l, skip) == 0
  {
    if labels != [] { EmptySums(labels[..|labels| - 1], l, skip); }
  }

  /**
   * The column of a label without its diagonal is its false positives, the whole column its predictions; so for rows.
   */
  lemma {:induction false} SumsAreCounts(cases: seq<Case>, labels: seq<string>, l: string)
    requires Lists(labels, cases)
    ensures Column(cases, labels, l, true) == FalsePositives(cases, l)
      && Column(cases, labels, l, false) == Predicted(cases, l)
    ensures Row(cases, labels, l, true) == FalseNegatives(cases, l)
      && Row(cases, labels, l, false) == Expected(cases, l)
  {
    if cases == [] {
      EmptySums(labels, l, true);
      EmptySums(labels, l, false);
    } else {
      var n := |cases| - 1;
      var c := cases[n];
      SumsAreCounts(cases[..n], labels, l);
      assert cases == cases[..n] + [c];
      ColumnSnoc(cases[..n], c, labels, l, true);
      ColumnSnoc(cases[..n], c, labels, l, false);
      RowSnoc(cases[..n], c, labels, l, true);
      RowSnoc(cases[..n], c, labels, l, false);
      hide Column, Row;
    }
  }

  lemma {:induction false} MatrixSums(m: Matrix, all: seq<string>, labels: seq<string>, cases: seq<Case>, l: string,
      skip: bool)
    requires Tabulates(m, all, cases) && l in all && forall o :: o in labels ==> o in all
    ensures ColumnSum(m, labels, l, skip) == Column(cases, labels, l, skip)
    ensures RowSum(m, labels, l, skip) == Row(cases, labels, l, skip)
  {
    if labels != [] {
      hide Count, Cell;
      var n := |labels| - 1;
      assert labels[n] in all;
      MatrixSums(m, all, labels[..n], cases, l, skip);
      assert Cell(m, labels[n], l) == Count(cases, labels[n], l) && Cell(m, l, labels[n]) == Count(cases, l, labels[n]);
    }
  }

  /** Per label, the matrix gives the F1 of the lists. */
  lemma MatrixAgrees(m: Matrix, labels: seq<string>, cases: seq<Case>, l: string)
    requires Lists(labels, cases) && Tabulates(m, labels, cases) && l in labels
    ensures MatrixF1(m, labels, l) == F1Of(cases, l)
  {
    MatrixSums(m, labels, labels, cases, l, true);
    SumsAreCounts(cases, labels, l);
    assert Cell(m, l, l) == Count(cases, l, l);
  }

  function MatrixSumF1(m: Matrix, labels: seq<string>, some: seq<string>): real {
    if some == [] then 0.0 else MatrixSumF1(m, labels, some[..|some| - 1]) + MatrixF1(m, labels, some[|some| - 1])
  }

  lemma {:induction false} SumsAgree(m: Matrix, labels: seq<string>, cases: seq<Case>, some: seq<string>)
    requires Lists(labels, cases) && Tabulates(m, labels, cases) && forall l :: l in some ==> l in labels
    ensures MatrixSumF1(m, labels, some) == SumF1(cases, some)
  {
    if some != [] {
      var n := |some| - 1;
      assert some[n] in labels;
      hide MatrixF1, F1Of, Lists, Tabulates;
      SumsAgree(m, labels, cases, some[..n]);
      MatrixAgrees(m, labels, cases, some[n]);
    }
  }

  /** The mean of the per-type F1 values of the confusion matrix is the macro F1 of the same label lists. */
  lemma TwoF1Agree(m: Matrix, labels: seq<string>, cases: seq<Case>)
    requires Lists(labels, cases) && Tabulates(m, labels, cases)
    ensures SafeDiv(MatrixSumF1(m, labels, labels), |labels| as real) == SafeDiv(SumF1(cases, labels), |labels| as real)
  {
    SumsAgree(m, labels, cases, labels);
  }

  // ----- totals -----

  function Total(labels: seq<string>, f: string -> nat): nat {
    if labels == [] then 0 else Total(labels[..|labels| - 1], f) + f(labels[|labels| - 1])
  }

  lemma {:induction false} TotalAdds(labels: seq<string>, f: string -> nat, g: string -> nat, x: string, one: nat)
    requires Distinct(labels)
    requires forall l :: l in labels ==> g(l) == f(l) + if l == x then one else 0
    ensures Total(labels, g) == Total(labels, f) + if x in labels then one else 0
  {
    if labels != [] {
      LastIsNew(labels);
      TotalAdds(labels[..|labels| - 1], f, g, x, one);
    }
  }

  lemma {:induction false} TotalZero(labels: seq<string>, f: string -> nat)
    requires forall l :: l in labels ==> f(l) == 0
    ensures Total(labels, f) == 0
  {
    if labels != [] { TotalZero(labels[..|labels| - 1], f); }
  }

  /** Row sums and column sums count the cases, and false positives and false negatives are each what is not a hit. */
  lemma {:induction false} TotalsCountCases(cases: seq<Case>, labels: seq<string>)
    requires Lists(labels, cases)
    ensures Total(labels, l => Expected(cases, l)) == |cases| == Total(labels, l => Predicted(cases, l))
    ensures Total(labels, l => Count(cases, l, l)) == Hits(cases)
    ensures Total(labels, l => FalsePositives(cases, l)) == |cases| - Hits(cases)
      == Total(labels, l => FalseNegatives(cases, l))
  {
    if cases == [] {
      TotalZero(labels, l => Expected(cases, l));
      TotalZero(labels, l => Predicted(cases, l));
      TotalZero(labels, l => Count(cases, l, l));
      TotalZero(labels, l => FalsePositives(cases, l));
      TotalZero(labels, l => FalseNegatives(cases, l));
    } else {
      var n := |cases| - 1;
      var before, c := cases[..n], cases[n];
      TotalsCountCases(before, labels);
      var miss := Bit(c.expected != c.predicted);
      hide Total, Count, Expected, Predicted, FalsePositives, FalseNegatives;
      forall l ensures Expected(cases, l) == Expected(before, l) + Bit(l == c.expected)
        && Predicted(cases, l) == Predicted(before, l) + Bit(l == c.predicted)
        && Count(cases, l, l) == Count(before, l, l) + (if l == c.expected then 1 - miss else 0)
        && FalsePositives(cases, l) == FalsePositives(before, l) + (if l == c.predicted then miss else 0)
        && FalseNegatives(cases, l) == FalseNegatives(before, l) + (if l == c.expected then miss else 0)
      {
        OneMore(cases, l);
      }
      TotalAdds(labels, l => Expected(before, l), l => Expected(cases, l), c.expected, 1);
      TotalAdds(labels, l => Predicted(before, l), l => Predicted(cases, l), c.predicted, 1);
      TotalAdds(labels, l => Count(before, l, l), l => Count(cases, l, l), c.expected, 1 - miss);
      TotalAdds(labels, l => FalsePositives(before, l), l => FalsePositives(cases, l), c.predicted, miss);
      TotalAdds(labels, l => FalseNegatives(before, l), l => FalseNegatives(cases, l), c.expected, miss);
    }
  }

  lemma OneMore(cases: seq<Case>, l: string)
    requires cases != []
    ensures var before, c := cases[..|cases| - 1], cases[|cases| - 1];
      var miss := Bit(c.expected != c.predicted);
      && Expected(cases, l) == Expected(before, l) + Bit(l == c.expected)
      && Predicted(cases, l) == Predicted(before, l) + Bit(l == c.predicted)
      && Count(cases, l, l) == Count(before, l, l) + (if l == c.expected then 1 - miss else 0)
      && FalsePositives(cases, l) == FalsePositives(before, l) + (if l == c.predicted then miss else 0)
      && FalseNegatives(cases, l) == FalseNegatives(before, l) + (if l == c.expected then miss else 0)
  {
  }

  // ----- the unit interval -----

  lemma RatioInUnit(a: nat, b: nat)
    ensures 0.0 <= Precision(a, b) <= 1.0
    ensures Precision(a, b) > 0.0 <==> a > 0
  {
    if a + b > 0 {
      var x, y := a as real, (a + b) as real;
      assert x / y * y == x;
      assert 0.0 <= x / y <= 1.0;
    }
  }

  lemma CombineInUnit(p: real, r: real)
    requires 0.0 <= p <= 1.0 && 0.0 <= r <= 1.0
    ensures 0.0 <= Combine(p, r) <= 1.0
    ensures Combine(p, r) > 0.0 <==> p > 0.0 && r > 0.0
  {
    var a := Numerator(p, r);
    hide Combine, SafeDiv;
    Quotient(a, p + r);
  }

  lemma Numerator(p: real, r: real) returns (a: real)
    requires 0.0 <= p <= 1.0 && 0.0 <= r <= 1.0
    ensures Combine(p, r) == SafeDiv(a, p + r) && 0.0 <= a <= p + r && (a > 0.0 <==> p > 0.0 && r > 0.0)
  {
    hide SafeDiv, Times;
    ProductInUnit(p, r);
    a := 2.0 * Times(p, r);
  }

  lemma ProductInUnit(p: real, r: real)
    requires 0.0 <= p <= 1.0 && 0.0 <= r <= 1.0
    ensures 0.0 <= Times(p, r) <= p && Times(p, r) <= r && (Times(p, r) > 0.0 <==> p > 0.0 && r > 0.0)
  {
    assert p * r <= p * 1.0 && p * r <= 1.0 * r;
  }

  lemma Quotient(a: real, b: real)
    requires 0.0 <= a <= b
    ensures 0.0 <= SafeDiv(a, b) <= 1.0
    ensures SafeDiv(a, b) > 0.0 <==> a > 0.0
  {
    if b > 0.0 {
      var q := a / b;
      assert q * b == a;
      assert q > 1.0 ==> q * b > 1.0 * b;
      assert q > 0.0 <==> q * b > 0.0;
    }
  }

  /** Every F1 lies between 0 and 1; it is positive exactly when something was predicted right. */
  lemma F1InUnit(cases: seq<Case>, l: string)
    ensures 0.0 <= F1Of(cases, l) <= 1.0
    ensures F1Of(cases, l) > 0.0 <==> Count(cases, l, l) > 0
  {
    hide Count, FalsePositives, FalseNegatives;
    RatioInUnit(Count(cases, l, l), FalsePositives(cases, l));
    RatioInUnit(Count(cases, l, l), FalseNegatives(cases, l));
    CombineInUnit(Precision(Count(cases, l, l), FalsePositives(cases, l)),
      Precision(Count(cases, l, l), FalseNegatives(cases, l)));
  }
}
