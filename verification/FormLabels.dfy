/** The labels of the known forms meet what the proofs about the filter ask of a form. */
module FormLabels {
  import opened Text
  import opened DocumentFields

  // ----- the known forms -----

  lemma DistinctOrders()
    ensures forall i, j :: 0 <= i < j < |QUOTE.order| ==> QUOTE.order[i] != QUOTE.order[j]
    ensures forall i, j :: 0 <= i < j < |RFQ.order| ==> RFQ.order[i] != RFQ.order[j]
  {
    var q, r := QUOTE.order, RFQ.order;
    assert |q[0]| == 2 && |q[1]| == |q[3]| == 4 && |q[2]| == |q[8]| == 11 && |q[4]| == |q[9]| == 10 && |q[5]| == 9
        && |q[6]| == 3 && |q[7]| == 6;
    assert q[1][0] == 'A' && q[3][0] == 'D' && q[2][0] == 'Y' && q[8][0] == 'T' && q[4][0] == 'O' && q[9][0] == 'l';
    assert |r[0]| == 2 && |r[1]| == |r[5]| == 4 && |r[2]| == 5 && |r[3]| == |r[8]| == 3 && |r[4]| == 6
        && |r[6]| == |r[9]| == 10 && |r[7]| == 9;
    assert r[1][0] == 'A' && r[5][0] == 'D' && r[3][0] == 'F' && r[8][0] == 'T' && r[6][0] == 'O' && r[9][0] == 'l';
  }

  lemma DistinctPaymentOrder()
    ensures var o := PAYMENT_REQUEST.order; forall i, j :: 0 <= i < j < |o| ==> o[i] != o[j]
  {
    var o := PAYMENT_REQUEST.order;
    assert |o[0]| == 2 && |o[1]| == |o[13]| == 4 && |o[2]| == |o[3]| == |o[10]| == |o[12]| == 3 && |o[4]| == 13
        && |o[5]| == |o[8]| == 10 && |o[6]| == 8 && |o[7]| == |o[16]| == |o[17]| == 9 && |o[9]| == 5 && |o[11]| == 11
        && |o[14]| == 7 && |o[15]| == 6;
  }

  lemma StatementFrontLengths()
    ensures var o := TRANSACTION_STATEMENT.order;
      && |o[0]| == |o[11]| == |o[12]| == 6 && |o[1]| == |o[8]| == |o[9]| == 11 && |o[2]| == 3
      && |o[3]| == |o[6]| == |o[10]| == 10 && |o[4]| == 13 && |o[5]| == 12 && |o[7]| == 8
  {
  }

  lemma StatementBackLengths()
    ensures var o := TRANSACTION_STATEMENT.order;
      && |o[13]| == 8 && |o[14]| == |o[18]| == |o[21]| == 4 && |o[15]| == |o[22]| == |o[23]| == 2 && |o[16]| == 11
      && |o[17]| == |o[24]| == 3 && |o[19]| == 7 && |o[20]| == 6
  {
  }

  lemma StatementFront()
    ensures var o := TRANSACTION_STATEMENT.order; forall i, j :: 0 <= i < j < 13 ==> o[i] != o[j]
  {
    StatementFrontLengths();
  }

  lemma StatementBack()
    ensures var o := TRANSACTION_STATEMENT.order; forall i, j :: 13 <= i < j < |o| ==> o[i] != o[j]
  {
    StatementBackLengths();
  }

  lemma StatementAcross()
    ensures var o := TRANSACTION_STATEMENT.order; forall i, j :: 0 <= i < 13 <= j < |o| ==> o[i] != o[j]
  {
    StatementFrontLengths();
    StatementBackLengths();
  }

  lemma DistinctStatementOrder()
    ensures var o := TRANSACTION_STATEMENT.order; forall i, j :: 0 <= i < j < |o| ==> o[i] != o[j]
  {
    StatementFront();
    StatementBack();
    StatementAcross();
    var o := TRANSACTION_STATEMENT.order;
    forall i, j | 0 <= i < j < |o| ensures o[i] != o[j] {
      if j >= 13 && i < 13 { assert o[i] != o[j]; }
    }
  }

  /** How the labels of the forms are written: from a capital or Hangul letter to a letter, a bracket or a full stop. */
  predicate Written(field: string) {
    field != "" && IsLetter(field[0]) && !('a' <= field[0] <= 'z')
    && (IsLetter(field[|field| - 1]) || field[|field| - 1] == ')' || field[|field| - 1] == '.')
  }

  lemma WrittenIsPlain(field: string)
    requires Written(field)
    ensures IsLabel(field) && !Special(field)
  {
  }

  lemma QuoteWritten()
    ensures forall i :: 0 <= i < |QUOTE.order| && QUOTE.order[i] != "line_items" ==> Written(QUOTE.order[i])
    ensures forall i :: 0 <= i < |QUOTE.columns| ==> Written(QUOTE.columns[i])
  {
  }

  lemma RfqWritten()
    ensures forall i :: 0 <= i < |RFQ.order| && RFQ.order[i] != "line_items" ==> Written(RFQ.order[i])
    ensures forall i :: 0 <= i < |RFQ.columns| ==> Written(RFQ.columns[i])
  {
  }

  lemma PaymentWritten()
    ensures forall i :: 0 <= i < |PAYMENT_REQUEST.order| ==> Written(PAYMENT_REQUEST.order[i])
  {
  }

  lemma StatementWritten()
    ensures forall i :: 0 <= i < |TRANSACTION_STATEMENT.order| ==> Written(TRANSACTION_STATEMENT.order[i])
  {
  }

  lemma FormsWellFormed()
    ensures WellFormed(QUOTE) && WellFormed(RFQ) && WellFormed(PAYMENT_REQUEST) && WellFormed(TRANSACTION_STATEMENT)
  {
    hide IsLabel, Special, Written;
    DistinctOrders();
    DistinctPaymentOrder();
    DistinctStatementOrder();
    QuoteWritten();
    RfqWritten();
    PaymentWritten();
    StatementWritten();
    forall l: string | Written(l) ensures IsLabel(l) && !Special(l) { WrittenIsPlain(l); }
  }
}
