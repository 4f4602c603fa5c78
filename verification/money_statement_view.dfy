/** The money statement of one account: the records are split into money
    in and money out by the receiver's name, summed, and the income column
    is right-aligned. */
module MoneyStatementView {

  import opened Wrappers
  import opened Text
  import opened Ledger
  import TransactionStatementView

  /** A record brings money into the owner's account when its receiver is
      named and is the owner: exactly the records the transaction statement
      prints with their own sign, all others printed negated. */
  function Incoming(rec: StatementRecord, owner: string): (incoming: bool)
    ensures incoming ==> TransactionStatementView.RecordAmount(rec, owner) == rec.amount
    ensures !incoming ==> TransactionStatementView.RecordAmount(rec, owner) == -rec.amount
  {
    rec.receiver != "" && rec.receiver == owner
  }

  /** Sum of the amounts of the incoming records. */
  function IncomeSum(records: seq<StatementRecord>, owner: string): int
  {
    if |records| == 0 then 0
    else
      var rec := records[|records| - 1];
      IncomeSum(records[..|records| - 1], owner) + (if Incoming(rec, owner) then rec.amount else 0)
  }

  /** Sum of the amounts of all other records. */
  function OutgoingSum(records: seq<StatementRecord>, owner: string): int
  {
    if |records| == 0 then 0
    else
      var rec := records[|records| - 1];
      OutgoingSum(records[..|records| - 1], owner) + (if Incoming(rec, owner) then 0 else rec.amount)
  }

  /** Sum of the amounts of all records. */
  function AmountSum(records: seq<StatementRecord>): int
  {
    if |records| == 0 then 0 else AmountSum(records[..|records| - 1]) + records[|records| - 1].amount
  }

  /** Sum of the signed amounts the transaction statement prints. */
  function SignedSum(records: seq<StatementRecord>, owner: string): int
  {
    if |records| == 0 then 0
    else
      SignedSum(records[..|records| - 1], owner)
        + TransactionStatementView.RecordAmount(records[|records| - 1], owner)
  }

  /** The accumulation loop of the money statement: incoming amounts are
      added to the income, all others subtracted from the outcome. */
  method Totals(records: seq<StatementRecord>, owner: string) returns (income: int, outcome: int)
    ensures income == IncomeSum(records, owner)
    ensures outcome == -OutgoingSum(records, owner)
    ensures income - outcome == AmountSum(records)
    ensures income + outcome == SignedSum(records, owner)
  {
    income := 0;
    outcome := 0;
    var i := 0;
    while i < |records|
      invariant 0 <= i <= |records|
      invariant income == IncomeSum(records[..i], owner)
      invariant outcome == -OutgoingSum(records[..i], owner)
    {
      assert records[..i + 1][..i] == records[..i];
      if Incoming(records[i], owner) {
        income := income + records[i].amount;
      } else {
        outcome := outcome - records[i].amount;
      }
      i := i + 1;
    }
    assert records[..|records|] == records;
    EveryRecordCountedOnce(records, owner);
    SignedSumIsNet(records, owner);
  }

  /** Every record is counted exactly once, on one side: the income minus
      the (non-positive) outcome is the sum of all amounts. */
  lemma {:induction false} EveryRecordCountedOnce(records: seq<StatementRecord>, owner: string)
    ensures IncomeSum(records, owner) + OutgoingSum(records, owner) == AmountSum(records)
  {
    if |records| > 0 {
      EveryRecordCountedOnce(records[..|records| - 1], owner);
    }
  }

  /** With non-negative amounts the income is non-negative and the outcome
      non-positive; an empty list gives zero on both sides. */
  lemma {:induction false} TotalsSigns(records: seq<StatementRecord>, owner: string)
    requires forall i | 0 <= i < |records| :: records[i].amount >= 0
    ensures IncomeSum(records, owner) >= 0 && -OutgoingSum(records, owner) <= 0
    ensures |records| == 0 ==> IncomeSum(records, owner) == 0 && OutgoingSum(records, owner) == 0
  {
    if |records| > 0 {
      TotalsSigns(records[..|records| - 1], owner);
    }
  }

  /** The money statement and the transaction statement agree on direction:
      a record with a positive amount is incoming exactly when the
      transaction statement prints it with a positive sign. */
  lemma IncomingIffPositiveRecord(rec: StatementRecord, owner: string)
    requires rec.amount > 0
    ensures Incoming(rec, owner) <==> TransactionStatementView.RecordAmount(rec, owner) > 0
  {
  }

  /** The signed amounts of the transaction statement add up to the money
      statement's income plus its outcome. */
  lemma {:induction false} SignedSumIsNet(records: seq<StatementRecord>, owner: string)
    ensures SignedSum(records, owner) == IncomeSum(records, owner) - OutgoingSum(records, owner)
  {
    if |records| > 0 {
      SignedSumIsNet(records[..|records| - 1], owner);
    }
  }

  /** The totals line: the income right-aligned in 18 columns, then the
      outcome. An income wider than 18 characters makes `repeat` throw. */
  function TotalsLine(incomeText: string, outcomeText: string): (line: Option<string>)
    ensures line.Some? <==> |incomeText| <= 18
    ensures line.Some? ==>
      && |line.value| == 33 + |outcomeText|
      && line.value[..18] == AlignRight(18, incomeText).value
      && line.value[18..25] == " BYN   "
      && line.value[25] == '|'
      && line.value[29..29 + |outcomeText|] == outcomeText
  {
    match AlignRight(18, incomeText)
    case None => None
    case Some(column) =>
      var line := column + " BYN   |   " + outcomeText + " BYN";
      assert line[..18] == column;
      assert line[18..25] == " BYN   ";
      assert line[29..29 + |outcomeText|] == outcomeText;
      Some(line)
  }
}
