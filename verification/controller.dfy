/** The three ledger operations of the application controller as pure step
    functions: replenishment, withdrawal and transfer.

    The console prompts, the printed messages, the check and its file are
    left out; what the store answers (affected row counts, the id returned
    by the ledger insert, a connection error) is passed in, so every path
    through the controller up to the check is a choice of inputs. */
module Controller {

  import opened Ledger

  /** How an operation ended; one constructor per message the source prints. */
  datatype Outcome =
    | Done(txId: int)    // the ledger insert returned this id
    | NoSuchAccount      // replenish/withdraw: the fetched account has id 0
    | NoSuchReceiver     // transfer: the receiver has id 0 (checked first)
    | NoSuchSender       // transfer: the sender has id 0
    | InsufficientFunds  // the balance is below the amount
    | UpdateFailed       // the account update did not report one row
    | LedgerFailed       // the ledger insert returned id 0
    | TransferAborted    // an SQL error reached the transfer's catch block

  /** The store's answers during a replenishment or a withdrawal: rows
      affected by the balance update, id returned by the ledger insert (0
      on failure), rows affected by the compensating update. */
  datatype Replies = Replies(updateRows: int, insertedId: int, rollbackRows: int)

  /** Where the connection throws during a transfer, if anywhere: switching
      auto-commit off, rolling back (or switching auto-commit back on) after
      a failed insert, committing, or switching auto-commit back on after
      the commit already happened. A point the transfer never reaches does
      not throw. */
  datatype Fault = NoFault | OnBegin | OnRollback | OnCommit | AfterCommit

  /** The store's answers during a transfer. */
  datatype TransferReplies = TransferReplies(senderRows: int, receiverRows: int, insertedId: int, fault: Fault)

  /** Replenishment: fetch, raise the balance, update, insert the ledger
      entry (no sender), and on a failed insert lower the balance again. */
  function Replenish(st: State, id: int, amount: int, io: Replies): (r: (State, Outcome))
    ensures r.0.accounts.Keys == st.accounts.Keys
    ensures r.1.NoSuchAccount? <==> !Found(st.accounts, id)
    ensures r.1.UpdateFailed? <==> Found(st.accounts, id) && io.updateRows != 1
    ensures r.1.NoSuchAccount? || r.1.UpdateFailed? ==> r.0 == st
    ensures r.1.Done? <==> Found(st.accounts, id) && io.updateRows == 1 && io.insertedId != 0
    ensures r.1.LedgerFailed? <==> Found(st.accounts, id) && io.updateRows == 1 && io.insertedId == 0
    ensures r.1.NoSuchAccount? || r.1.UpdateFailed? || r.1.LedgerFailed? || r.1.Done?
    ensures r.1.Done? ==>
      && r.1.txId == io.insertedId
      && r.0.accounts[id] == st.accounts[id].(balance := st.accounts[id].balance + amount)
      && SameExcept(st.accounts, r.0.accounts, {id})
      && r.0.ledger == st.ledger + [Entry(amount, 0, id)]
    ensures r.1.LedgerFailed? ==>
      && r.0.ledger == st.ledger
      && SameExcept(st.accounts, r.0.accounts, {id})
      && (io.rollbackRows == 1 ==> r.0 == st)
  {
    if !Found(st.accounts, id) then (st, NoSuchAccount)
    else
      var account := st.accounts[id];
      var raised := account.(balance := account.balance + amount);
      if io.updateRows != 1 then (st, UpdateFailed)
      else
        var updated := Write(st, id, raised, io.updateRows);
        if io.insertedId == 0 then
          var restored := raised.(balance := raised.balance - amount);
          (Write(updated, id, restored, io.rollbackRows), LedgerFailed)
        else
          (updated.(ledger := updated.ledger + [Entry(amount, 0, id)]), Done(io.insertedId))
  }

  /** Withdrawal: fetch, refuse when the balance is below the amount, lower
      the balance, update, insert the ledger entry (no receiver), and on a
      failed insert raise the balance again. */
  function Withdraw(st: State, id: int, amount: int, io: Replies): (r: (State, Outcome))
    ensures r.0.accounts.Keys == st.accounts.Keys
    ensures r.1.NoSuchAccount? <==> !Found(st.accounts, id)
    ensures r.1.InsufficientFunds? <==> Found(st.accounts, id) && st.accounts[id].balance < amount
    ensures r.1.UpdateFailed? <==>
      Found(st.accounts, id) && st.accounts[id].balance >= amount && io.updateRows != 1
    ensures r.1.NoSuchAccount? || r.1.InsufficientFunds? || r.1.UpdateFailed? ==> r.0 == st
    ensures r.1.Done? <==>
      Found(st.accounts, id) && st.accounts[id].balance >= amount && io.updateRows == 1 && io.insertedId != 0
    ensures r.1.LedgerFailed? <==>
      Found(st.accounts, id) && st.accounts[id].balance >= amount && io.updateRows == 1 && io.insertedId == 0
    ensures r.1.NoSuchAccount? || r.1.InsufficientFunds? || r.1.UpdateFailed? || r.1.LedgerFailed? || r.1.Done?
    ensures r.1.Done? ==>
      && r.1.txId == io.insertedId
      && r.0.accounts[id] == st.accounts[id].(balance := st.accounts[id].balance - amount)
      && SameExcept(st.accounts, r.0.accounts, {id})
      && r.0.ledger == st.ledger + [Entry(amount, id, 0)]
    ensures r.1.LedgerFailed? ==>
      && r.0.ledger == st.ledger
      && SameExcept(st.accounts, r.0.accounts, {id})
      && (io.rollbackRows == 1 ==> r.0 == st)
  {
    if !Found(st.accounts, id) then (st, NoSuchAccount)
    else
      var account := st.accounts[id];
      if account.balance < amount then (st, InsufficientFunds)
      else
        var lowered := account.(balance := account.balance - amount);
        if io.updateRows != 1 then (st, UpdateFailed)
        else
          var updated := Write(st, id, lowered, io.updateRows);
          if io.insertedId == 0 then
            var restored := lowered.(balance := lowered.balance + amount);
            (Write(updated, id, restored, io.rollbackRows), LedgerFailed)
          else
            (updated.(ledger := updated.ledger + [Entry(amount, id, 0)]), Done(io.insertedId))
  }

  /** The tables after the transfer's database transaction commits: the
      sender row written first, the receiver row second (each only if its
      update affected one row), and the ledger entry with both ids. Both
      rows are computed from the balances fetched before the transaction,
      so for a transfer to oneself the second write wins. */
  function TransferCommit(st: State, senderId: int, receiverId: int, amount: int, io: TransferReplies): State
    requires senderId in st.accounts && receiverId in st.accounts
  {
    var sender := st.accounts[senderId];
    var receiver := st.accounts[receiverId];
    var debited := Write(st, senderId, sender.(balance := sender.balance - amount), io.senderRows);
    var credited := Write(debited, receiverId, receiver.(balance := receiver.balance + amount), io.receiverRows);
    credited.(ledger := st.ledger + [Entry(amount, senderId, receiverId)])
  }

  /** Transfer: check receiver, then sender, then the sender's balance; then
      run both updates and the ledger insert inside one database
      transaction, rolled back when the insert returns 0 or the connection
      throws before the commit completes. */
  function Transfer(st: State, senderId: int, receiverId: int, amount: int, io: TransferReplies): (r: (State, Outcome))
    ensures r.0.accounts.Keys == st.accounts.Keys
    ensures r.1.NoSuchReceiver? <==> !Found(st.accounts, receiverId)
    ensures r.1.NoSuchSender? <==> Found(st.accounts, receiverId) && !Found(st.accounts, senderId)
    ensures r.1.InsufficientFunds? <==>
      Found(st.accounts, receiverId) && Found(st.accounts, senderId) && st.accounts[senderId].balance < amount
    ensures r.1.NoSuchReceiver? || r.1.NoSuchSender? || r.1.InsufficientFunds? ==> r.0 == st
    ensures r.1.LedgerFailed? ==> r.0 == st
    ensures r.1.TransferAborted? && io.fault != AfterCommit ==> r.0 == st
    ensures r.1.Done? <==>
      && Found(st.accounts, receiverId) && Found(st.accounts, senderId)
      && st.accounts[senderId].balance >= amount
      && io.insertedId != 0 && (io.fault == NoFault || io.fault == OnRollback)
    ensures r.1.LedgerFailed? <==>
      && Found(st.accounts, receiverId) && Found(st.accounts, senderId)
      && st.accounts[senderId].balance >= amount
      && io.fault != OnBegin && io.fault != OnRollback && io.insertedId == 0
    ensures r.1.NoSuchReceiver? || r.1.NoSuchSender? || r.1.InsufficientFunds?
            || r.1.LedgerFailed? || r.1.TransferAborted? || r.1.Done?
    ensures r.1.Done? ==> r.1.txId == io.insertedId && r.0.ledger == st.ledger + [Entry(amount, senderId, receiverId)]
    ensures r.1.TransferAborted? && io.fault == AfterCommit ==> r.0.ledger == st.ledger + [Entry(amount, senderId, receiverId)]
    ensures r.0 == st || r.0.ledger == st.ledger + [Entry(amount, senderId, receiverId)]
    ensures r.0.ledger == st.ledger || r.1.Done? || (r.1.TransferAborted? && io.fault == AfterCommit)
    ensures SameExcept(st.accounts, r.0.accounts, {senderId, receiverId})
  {
    if !Found(st.accounts, receiverId) then (st, NoSuchReceiver)
    else if !Found(st.accounts, senderId) then (st, NoSuchSender)
    else if st.accounts[senderId].balance < amount then (st, InsufficientFunds)
    else if io.fault == OnBegin then (st, TransferAborted)
    else if io.insertedId == 0 then
      // the insert's rollback has undone both updates, whether or not the
      // rollback or the auto-commit switch then throws into the catch block
      (st, if io.fault == OnRollback then TransferAborted else LedgerFailed)
    else if io.fault == OnCommit then (st, TransferAborted)
    else
      var committed := TransferCommit(st, senderId, receiverId, amount, io);
      if io.fault == AfterCommit then (committed, TransferAborted)
      else assert io.fault == NoFault || io.fault == OnRollback; (committed, Done(io.insertedId))
  }
}
