/** The ledger conventions the controller writes and the check reads: a
    zero sender marks a replenishment, a zero receiver a withdrawal, two
    non-zero ids a transfer. */
module Conventions {

  import opened Ledger
  import opened Controller
  import CheckView
  import Invariants

  /** The entry a successful replenishment appends is printed as a
      replenishment. */
  lemma ReplenishEntryReadsAsReplenishment(st: State, id: int, amount: int, io: Replies)
    requires Replenish(st, id, amount, io).1.Done?
    ensures var e := Replenish(st, id, amount, io).0.ledger[|st.ledger|];
      CheckView.OperationTypeOf(e.senderId, e.receiverId) == CheckView.Replenishment
  {
  }

  /** The entry a successful withdrawal appends is printed as a
      withdrawal. */
  lemma WithdrawEntryReadsAsWithdrawal(st: State, id: int, amount: int, io: Replies)
    requires Withdraw(st, id, amount, io).1.Done?
    ensures var e := Withdraw(st, id, amount, io).0.ledger[|st.ledger|];
      CheckView.OperationTypeOf(e.senderId, e.receiverId) == CheckView.Withdrawal
  {
  }

  /** The entry a successful transfer appends is printed as a transfer. */
  lemma TransferEntryReadsAsTransfer(st: State, senderId: int, receiverId: int, amount: int, io: TransferReplies)
    requires Transfer(st, senderId, receiverId, amount, io).1.Done?
    ensures var e := Transfer(st, senderId, receiverId, amount, io).0.ledger[|st.ledger|];
      CheckView.OperationTypeOf(e.senderId, e.receiverId) == CheckView.Transfer
  {
  }

  /** Every entry names at least one account. */
  ghost predicate AllKnown(ledger: seq<Entry>)
  {
    forall i | 0 <= i < |ledger| :: CheckView.OperationTypeOf(ledger[i].senderId, ledger[i].receiverId) != CheckView.Unknown
  }

  /** One step keeps earlier entries and appends only classifiable ones. */
  lemma StepKeepsKnown(st: State, q: Invariants.Request)
    requires AllKnown(st.ledger)
    ensures AllKnown(Invariants.Step(st, q).ledger)
  {
    match q {
      case ReplenishRequest(id, amount, io) =>
      case WithdrawRequest(id, amount, io) =>
      case TransferRequest(s, r, amount, io) =>
        var after := Transfer(st, s, r, amount, io).0;
        if after != st {
          assert after.ledger == st.ledger + [Entry(amount, s, r)];
          assert Found(st.accounts, s) && Found(st.accounts, r);
        }
    }
  }

  /** Whatever the store answers, the controller never writes an entry the
      check would call an unknown operation. */
  lemma {:induction false} RunWritesNoUnknown(st: State, qs: seq<Invariants.Request>)
    requires AllKnown(st.ledger)
    ensures AllKnown(Invariants.Run(st, qs).ledger)
    decreases |qs|
  {
    if |qs| > 0 {
      StepKeepsKnown(st, qs[0]);
      RunWritesNoUnknown(Invariants.Step(st, qs[0]), qs[1..]);
    }
  }
}
