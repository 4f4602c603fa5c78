/** Entities of the bank core and the store they live in.

    The account table is a map from account id to the row's other columns;
    the transaction table is the sequence of entries in insertion order.
    Money is an integer number of the smallest currency unit. */
module Ledger {

  /** One row of the account table, without its key. */
  datatype Account = Account(bankId: int, balance: int, userId: int)

  /** One row of the transaction table. Sender 0 means "no sender"
      (a replenishment), receiver 0 means "no receiver" (a withdrawal). */
  datatype Entry = Entry(amount: int, senderId: int, receiverId: int)

  /** One row of the statement query: the day of the entry, the names of
      the sending and receiving users ("" where the entry has none) and the
      amount. */
  datatype StatementRecord = StatementRecord(day: int, sender: string, receiver: string, amount: int)

  /** The two tables the controller reads and writes. */
  datatype State = State(accounts: map<int, Account>, ledger: seq<Entry>)

  /** The id of the object the account service hands back for `id`: the id
      of the row when there is one, and the default constructor's 0 when the
      query finds nothing. */
  function FetchedId(accounts: map<int, Account>, id: int): int
  {
    if id in accounts then id else 0
  }

  /** What the controller means by "the account exists": the fetched object
      does not carry the sentinel id 0. */
  predicate Found(accounts: map<int, Account>, id: int)
  {
    FetchedId(accounts, id) != 0
  }

  /** A row keyed 0 is indistinguishable from a missing one. */
  lemma FoundIffStoredAndNonZero(accounts: map<int, Account>, id: int)
    ensures Found(accounts, id) <==> id in accounts && id != 0
  {
  }

  /** An `UPDATE ... WHERE id = ?` that reports `rows` affected rows: the new
      row is in the table exactly when one row was affected. */
  function Write(st: State, id: int, row: Account, rows: int): State
  {
    if rows == 1 then st.(accounts := st.accounts[id := row]) else st
  }

  /** Same keys, and every account outside `ids` holds the same row. */
  ghost predicate SameExcept(before: map<int, Account>, after: map<int, Account>, ids: set<int>)
  {
    && before.Keys == after.Keys
    && forall k | k in before && k !in ids :: after[k] == before[k]
  }

  /** The change an entry makes to account `k`: credited as receiver,
      debited as sender. */
  function Effect(e: Entry, k: int): int
  {
    (if e.receiverId == k then e.amount else 0) - (if e.senderId == k then e.amount else 0)
  }

  /** The net amount the ledger moved into account `k`. */
  function NetFlow(ledger: seq<Entry>, k: int): int
  {
    if |ledger| == 0 then 0 else NetFlow(ledger[..|ledger| - 1], k) + Effect(ledger[|ledger| - 1], k)
  }

  lemma NetFlowAppend(ledger: seq<Entry>, e: Entry, k: int)
    ensures NetFlow(ledger + [e], k) == NetFlow(ledger, k) + Effect(e, k)
  {
    assert (ledger + [e])[..|ledger|] == ledger;
  }

  /** Balance and ledger agree: every live account (a non-zero key) holds its
      opening balance plus everything the ledger moved into it. This is the
      "every committed balance change has exactly one ledger entry" promise,
      stated as an invariant of the two tables. */
  ghost predicate Consistent(st: State, opening: map<int, int>)
  {
    && st.accounts.Keys == opening.Keys
    && forall k | k in st.accounts && k != 0 ::
         st.accounts[k].balance == opening[k] + NetFlow(st.ledger, k)
  }

  /** No account holds a negative balance. */
  ghost predicate NonNegative(st: State)
  {
    forall k | k in st.accounts :: st.accounts[k].balance >= 0
  }
}
