/** What the controller's operations keep true of the two tables, and the
    inputs under which the source lets those promises slip. */
module Invariants {

  import opened Ledger
  import opened Controller

  // ---------------------------------------------------------------------
  // Balance and ledger stay in step
  // ---------------------------------------------------------------------

  /** A replenishment keeps balances and ledger in step, unless its
      compensating update is lost after a failed ledger insert. */
  lemma ReplenishKeepsConsistent(st: State, opening: map<int, int>, id: int, amount: int, io: Replies)
    requires Consistent(st, opening)
    requires io.insertedId != 0 || io.rollbackRows == 1
    ensures Consistent(Replenish(st, id, amount, io).0, opening)
  {
    var r := Replenish(st, id, amount, io);
    if r.1.Done? {
      var e := Entry(amount, 0, id);
      forall k | k in r.0.accounts && k != 0
        ensures r.0.accounts[k].balance == opening[k] + NetFlow(r.0.ledger, k)
      {
        NetFlowAppend(st.ledger, e, k);
      }
    }
  }

  /** A withdrawal keeps balances and ledger in step, unless its
      compensating update is lost after a failed ledger insert. */
  lemma WithdrawKeepsConsistent(st: State, opening: map<int, int>, id: int, amount: int, io: Replies)
    requires Consistent(st, opening)
    requires io.insertedId != 0 || io.rollbackRows == 1
    ensures Consistent(Withdraw(st, id, amount, io).0, opening)
  {
    var r := Withdraw(st, id, amount, io);
    if r.1.Done? {
      var e := Entry(amount, id, 0);
      forall k | k in r.0.accounts && k != 0
        ensures r.0.accounts[k].balance == opening[k] + NetFlow(r.0.ledger, k)
      {
        NetFlowAppend(st.ledger, e, k);
      }
    }
  }

  /** A transfer between two distinct accounts whose updates both land keeps
      balances and ledger in step, whatever else the store answers. */
  lemma TransferKeepsConsistent(st: State, opening: map<int, int>, senderId: int, receiverId: int, amount: int, io: TransferReplies)
    requires Consistent(st, opening)
    requires senderId != receiverId
    requires io.senderRows == 1 && io.receiverRows == 1
    ensures Consistent(Transfer(st, senderId, receiverId, amount, io).0, opening)
  {
    var r := Transfer(st, senderId, receiverId, amount, io);
    if r.0 != st {
      var e := Entry(amount, senderId, receiverId);
      forall k | k in r.0.accounts && k != 0
        ensures r.0.accounts[k].balance == opening[k] + NetFlow(r.0.ledger, k)
      {
        NetFlowAppend(st.ledger, e, k);
      }
    }
  }

  /** When the ledger insert of a replenishment fails and the compensating
      update does not land either (the source ignores its row count), the
      raised balance stays without a ledger entry. */
  lemma ReplenishLostRollbackBreaksConsistency(st: State, opening: map<int, int>, id: int, amount: int, io: Replies)
    requires Consistent(st, opening)
    requires Found(st.accounts, id) && amount != 0
    requires io.updateRows == 1 && io.insertedId == 0 && io.rollbackRows != 1
    ensures Replenish(st, id, amount, io).1 == LedgerFailed
    ensures !Consistent(Replenish(st, id, amount, io).0, opening)
  {
    var r := Replenish(st, id, amount, io);
    assert r.0.accounts[id].balance == st.accounts[id].balance + amount;
  }

  /** The same gap on the withdrawal path: the lowered balance stays without
      a ledger entry. */
  lemma WithdrawLostRollbackBreaksConsistency(st: State, opening: map<int, int>, id: int, amount: int, io: Replies)
    requires Consistent(st, opening)
    requires Found(st.accounts, id) && amount != 0 && st.accounts[id].balance >= amount
    requires io.updateRows == 1 && io.insertedId == 0 && io.rollbackRows != 1
    ensures Withdraw(st, id, amount, io).1 == LedgerFailed
    ensures !Consistent(Withdraw(st, id, amount, io).0, opening)
  {
    var r := Withdraw(st, id, amount, io);
    assert r.0.accounts[id].balance == st.accounts[id].balance - amount;
  }

  // ---------------------------------------------------------------------
  // Transfers
  // ---------------------------------------------------------------------

  /** The effect of a committed transfer between distinct accounts: the
      sender loses the amount, the receiver gains it, no other account
      changes, and the ledger gains exactly one entry with both ids. */
  ghost predicate Moved(before: State, after: State, senderId: int, receiverId: int, amount: int)
    requires senderId in before.accounts && receiverId in before.accounts
  {
    && after.accounts == before.accounts
         [senderId := before.accounts[senderId].(balance := before.accounts[senderId].balance - amount)]
         [receiverId := before.accounts[receiverId].(balance := before.accounts[receiverId].balance + amount)]
    && after.ledger == before.ledger + [Entry(amount, senderId, receiverId)]
  }

  /** All or nothing: between distinct accounts whose updates land, a
      transfer either leaves both tables as they were or moves the amount
      in full with its one ledger entry, and the two balances keep their
      sum. It moves the amount exactly when it reports success or the
      connection failed after the commit. */
  lemma TransferAllOrNothing(st: State, senderId: int, receiverId: int, amount: int, io: TransferReplies)
    requires senderId != receiverId
    requires io.senderRows == 1 && io.receiverRows == 1
    ensures var r := Transfer(st, senderId, receiverId, amount, io);
      || r.0 == st
      || (&& senderId in st.accounts && receiverId in st.accounts
          && Moved(st, r.0, senderId, receiverId, amount)
          && r.0.accounts[senderId].balance + r.0.accounts[receiverId].balance
             == st.accounts[senderId].balance + st.accounts[receiverId].balance
          && (r.1.Done? || (r.1.TransferAborted? && io.fault == AfterCommit)))
  {
  }

  /** A transfer from an account to itself: both objects are fetched with
      the same balance, the sender row is written first and the receiver row
      second, so the balance ends up raised by the amount while the ledger
      records a movement whose net effect on the account is zero. */
  lemma SelfTransferRaisesBalance(st: State, opening: map<int, int>, id: int, amount: int, io: TransferReplies)
    requires Found(st.accounts, id) && st.accounts[id].balance >= amount
    requires io.senderRows == 1 && io.receiverRows == 1 && io.insertedId != 0 && io.fault == NoFault
    ensures var r := Transfer(st, id, id, amount, io);
      && r.1.Done?
      && r.0.accounts[id].balance == st.accounts[id].balance + amount
      && r.0.ledger == st.ledger + [Entry(amount, id, id)]
      && (Consistent(st, opening) && amount != 0 ==> !Consistent(r.0, opening))
  {
    var r := Transfer(st, id, id, amount, io);
    NetFlowAppend(st.ledger, Entry(amount, id, id), id);
  }

  /** The transfer never looks at the row counts of its two updates: when
      the sender's update affects no row, the transfer still commits and
      reports success, crediting the receiver without debiting the sender. */
  lemma TransferIgnoresRowCounts(st: State, senderId: int, receiverId: int, amount: int, io: TransferReplies)
    requires senderId != receiverId
    requires Found(st.accounts, senderId) && Found(st.accounts, receiverId)
    requires st.accounts[senderId].balance >= amount
    requires io.senderRows != 1 && io.receiverRows == 1 && io.insertedId != 0 && io.fault == NoFault
    ensures var r := Transfer(st, senderId, receiverId, amount, io);
      && r.1.Done?
      && r.0.accounts[senderId] == st.accounts[senderId]
      && r.0.accounts[receiverId].balance == st.accounts[receiverId].balance + amount
  {
  }

  /** When switching auto-commit back on throws, the commit has already
      happened: the transfer reports failure although both balances and the
      ledger entry are in place. */
  lemma TransferFailureAfterCommitKeepsEffect(st: State, senderId: int, receiverId: int, amount: int, io: TransferReplies)
    requires senderId != receiverId
    requires Found(st.accounts, senderId) && Found(st.accounts, receiverId)
    requires st.accounts[senderId].balance >= amount
    requires io.senderRows == 1 && io.receiverRows == 1 && io.insertedId != 0 && io.fault == AfterCommit
    ensures var r := Transfer(st, senderId, receiverId, amount, io);
      r.1 == TransferAborted && Moved(st, r.0, senderId, receiverId, amount)
  {
  }

  // ---------------------------------------------------------------------
  // No negative balance
  // ---------------------------------------------------------------------

  /** A withdrawal never drives a balance below zero, for any amount: it is
      refused when the balance is below the amount, and the compensating
      update restores the balance read before. */
  lemma WithdrawKeepsNonNegative(st: State, id: int, amount: int, io: Replies)
    requires NonNegative(st)
    ensures NonNegative(Withdraw(st, id, amount, io).0)
  {
  }

  /** A replenishment of a non-negative amount never drives a balance below
      zero. */
  lemma ReplenishKeepsNonNegative(st: State, id: int, amount: int, io: Replies)
    requires NonNegative(st) && amount >= 0
    ensures NonNegative(Replenish(st, id, amount, io).0)
  {
  }

  /** A transfer of a non-negative amount never drives a balance below zero,
      whichever of its updates land and even from an account to itself. */
  lemma TransferKeepsNonNegative(st: State, senderId: int, receiverId: int, amount: int, io: TransferReplies)
    requires NonNegative(st) && amount >= 0
    ensures NonNegative(Transfer(st, senderId, receiverId, amount, io).0)
  {
    var r := Transfer(st, senderId, receiverId, amount, io);
    if r.0 != st {
      forall k | k in r.0.accounts ensures r.0.accounts[k].balance >= 0 {
      }
    }
  }

  /** No amount is validated: a negative transfer amount passes the balance
      check and drives the receiver's balance down, below zero when the
      receiver holds less than its magnitude. */
  lemma NegativeTransferOverdrawsReceiver(st: State, senderId: int, receiverId: int, amount: int, io: TransferReplies)
    requires senderId != receiverId
    requires Found(st.accounts, senderId) && Found(st.accounts, receiverId)
    requires st.accounts[senderId].balance >= 0 && amount < 0
    requires st.accounts[receiverId].balance + amount < 0
    requires io.senderRows == 1 && io.receiverRows == 1 && io.insertedId != 0 && io.fault == NoFault
    ensures var r := Transfer(st, senderId, receiverId, amount, io);
      r.1.Done? && r.0.accounts[receiverId].balance < 0
  {
  }

  // ---------------------------------------------------------------------
  // Sequences of operations
  // ---------------------------------------------------------------------

  /** One menu choice of the controller with the store's answers to it. */
  datatype Request =
    | ReplenishRequest(id: int, amount: int, replies: Replies)
    | WithdrawRequest(id: int, amount: int, replies: Replies)
    | TransferRequest(senderId: int, receiverId: int, amount: int, transferReplies: TransferReplies)

  function Step(st: State, q: Request): State
  {
    match q
    case ReplenishRequest(id, amount, io) => Replenish(st, id, amount, io).0
    case WithdrawRequest(id, amount, io) => Withdraw(st, id, amount, io).0
    case TransferRequest(s, r, amount, io) => Transfer(st, s, r, amount, io).0
  }

  /** The tables after the requests, in order. */
  function Run(st: State, qs: seq<Request>): State
    decreases |qs|
  {
    if |qs| == 0 then st else Run(Step(st, qs[0]), qs[1..])
  }

  /** The store behaves as the consistency promise needs: every compensating
      update lands, and transfers are between distinct accounts whose
      updates land. */
  predicate WellBehaved(q: Request)
  {
    match q
    case ReplenishRequest(_, _, io) => io.insertedId != 0 || io.rollbackRows == 1
    case WithdrawRequest(_, _, io) => io.insertedId != 0 || io.rollbackRows == 1
    case TransferRequest(s, r, _, io) => s != r && io.senderRows == 1 && io.receiverRows == 1
  }

  predicate NonNegativeAmount(q: Request)
  {
    match q
    case ReplenishRequest(_, amount, _) => amount >= 0
    case WithdrawRequest(_, amount, _) => true
    case TransferRequest(_, _, amount, _) => amount >= 0
  }

  /** Over any run of well-behaved requests, every live account's balance is
      its opening balance plus the net of its ledger entries. */
  lemma {:induction false} RunKeepsConsistent(st: State, opening: map<int, int>, qs: seq<Request>)
    requires Consistent(st, opening)
    requires forall i | 0 <= i < |qs| :: WellBehaved(qs[i])
    ensures Consistent(Run(st, qs), opening)
    decreases |qs|
  {
    if |qs| > 0 {
      match qs[0] {
        case ReplenishRequest(id, amount, io) => ReplenishKeepsConsistent(st, opening, id, amount, io);
        case WithdrawRequest(id, amount, io) => WithdrawKeepsConsistent(st, opening, id, amount, io);
        case TransferRequest(s, r, amount, io) => TransferKeepsConsistent(st, opening, s, r, amount, io);
      }
      assert forall i | 0 <= i < |qs[1..]| :: WellBehaved(qs[1..][i]) by {
        forall i | 0 <= i < |qs[1..]| ensures WellBehaved(qs[1..][i]) {
          assert qs[1..][i] == qs[i + 1];
        }
      }
      RunKeepsConsistent(Step(st, qs[0]), opening, qs[1..]);
    }
  }

  /** Over any run of requests with non-negative replenishment and transfer
      amounts, whatever the store answers, no balance goes below zero. */
  lemma {:induction false} RunKeepsNonNegative(st: State, qs: seq<Request>)
    requires NonNegative(st)
    requires forall i | 0 <= i < |qs| :: NonNegativeAmount(qs[i])
    ensures NonNegative(Run(st, qs))
    decreases |qs|
  {
    if |qs| > 0 {
      match qs[0] {
        case ReplenishRequest(id, amount, io) => ReplenishKeepsNonNegative(st, id, amount, io);
        case WithdrawRequest(id, amount, io) => WithdrawKeepsNonNegative(st, id, amount, io);
        case TransferRequest(s, r, amount, io) => TransferKeepsNonNegative(st, s, r, amount, io);
      }
      assert forall i | 0 <= i < |qs[1..]| :: NonNegativeAmount(qs[1..][i]) by {
        forall i | 0 <= i < |qs[1..]| ensures NonNegativeAmount(qs[1..][i]) {
          assert qs[1..][i] == qs[i + 1];
        }
      }
      RunKeepsNonNegative(Step(st, qs[0]), qs[1..]);
    }
  }
}
