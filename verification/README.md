# Clever-Bank core in Dafny

A model of the sequential core of the Clever-Bank console application.

- **The controller's three ledger operations.** Replenish, withdraw and transfer are pure step functions over two tables: the account table (a map from account id to bank, balance and owner) and the transaction table (a sequence of `(amount, senderId, receiverId)` entries).
  - Whatever the store answers is an input: the row count of each `UPDATE`, the id the ledger insert returns (0 on failure), and the point at which the connection throws during a transfer. Every path through the controller's own code, up to the point where the tables have changed and the check is built, is one choice of these inputs. Two paths are not: a failed account read, and a check that cannot be built after the tables changed (see "## Left out").
- **The pure parts of the three views.**
  - the classification of an entry by its ids;
  - the bank-name guard and the fixed-width template of the check;
  - the statement period, the note and the signed amount of a record;
  - the income/outcome totals of the money statement;
  - every `" ".repeat(W - len) + s` padding.

Money is an integer number of the smallest currency unit. Dates are day numbers. Month and year subtraction are function parameters.

| file | module | models |
|---|---|---|
| `wrappers.dfy` | `Wrappers` | `Option` |
| `ledger.dfy` | `Ledger` | the entities, the sentinel account, the row write, the ledger's net flow per account, the consistency invariant |
| `controller.dfy` | `Controller` | `replenishAccount`, `withdrawAccount`, `transferToAnotherAccount` |
| `invariants.dfy` | `Invariants` | what the operations keep true, one call at a time and over whole runs, and where they let it slip |
| `conventions.dfy` | `Conventions` | the controller's id conventions read back through the check's classification |
| `text.dfy` | `Text` | padding, `String.valueOf(long)`, `split(" ")[0]` |
| `check_view.dfy` | `CheckView` | `getCheck`, `getOperationType` |
| `transaction_statement_view.dfy` | `TransactionStatementView` | `getPeriodStart`, `getOperationNote`, `getRecordAmount`, the record lines |
| `money_statement_view.dfy` | `MoneyStatementView` | `getOperationType` and the totals loop |

Java's `repeat` throws on a negative count, and `split(" ")[0]` throws on a non-empty string of spaces. Both become `None`.

What the code does, and the model with it:
- The code takes no per-account lock and updates a balance with a plain read-then-write.
- A missing account is the default object with id 0.
- The transfer never checks the row counts of its two updates. It relies on the database transaction alone.
- The code never validates an amount. "No balance goes negative" therefore holds only for non-negative replenishment and transfer amounts.

## Model

| member | source | states |
|---|---|---|
| Ledger.FoundIffStoredAndNonZero | src/main/java/model/entity/Account.java:39-44 | An account counts as existing exactly when its row is stored under a non-zero id. A lookup that finds nothing yields the default object with id 0. |
| Controller.Replenish | src/main/java/controller/ApplicationController.java:103-145 | A missing account or a failed update leaves both tables unchanged. Success raises only that balance, by exactly the amount, and appends exactly one entry `(amount, 0, id)`. A failed ledger insert appends nothing and restores the balance whenever the compensating update lands. Each of the four outcomes comes with its exact condition, and no other outcome occurs. |
| Controller.Withdraw | src/main/java/controller/ApplicationController.java:148-198 | A missing account, a balance below the amount, or a failed update leaves both tables unchanged. Success lowers only that balance, by exactly the amount, and appends exactly one entry `(amount, id, 0)`. A failed ledger insert appends nothing and restores the balance whenever the compensating update lands. Each of the five outcomes comes with its exact condition, and no other outcome occurs. |
| Controller.Transfer | src/main/java/controller/ApplicationController.java:204-279 | Receiver, then sender, then the sender's balance are checked, and any failed check changes nothing. A failed insert and any error before the commit change nothing. A failed insert is reported as a ledger failure, or as an aborted transfer when the rollback after it throws. Success and an error after the commit each append exactly one entry `(amount, senderId, receiverId)`. Accounts other than the two are untouched. It reports success exactly when the checks pass, the insert returns an id and no connection call it reaches throws. |
| Invariants.ReplenishKeepsConsistent | src/main/java/controller/ApplicationController.java:120-136 | Every live balance equals its opening balance plus its ledger net flow, and a replenishment keeps it so, provided a lost insert is followed by a landing rollback. |
| Invariants.WithdrawKeepsConsistent | src/main/java/controller/ApplicationController.java:172-189 | The same balance/ledger agreement is kept by a withdrawal. |
| Invariants.TransferKeepsConsistent | src/main/java/controller/ApplicationController.java:238-265 | The balance/ledger agreement is kept by a transfer between distinct accounts whose two updates land, on every path including the faults. |
| Invariants.ReplenishLostRollbackBreaksConsistency | src/main/java/controller/ApplicationController.java:129-135 | If the insert fails and the compensating update is lost, the outcome is LedgerFailed and the balance and ledger disagree. The source ignores that update's row count. |
| Invariants.WithdrawLostRollbackBreaksConsistency | src/main/java/controller/ApplicationController.java:182-188 | The same gap exists on the withdrawal path. |
| Invariants.TransferAllOrNothing | src/main/java/controller/ApplicationController.java:238-278 | For distinct accounts, either nothing changes, or the amount moves in full from sender to receiver with its one entry and the pair's sum is conserved. The latter happens only on success or on an error after the commit. |
| Invariants.SelfTransferRaisesBalance | src/main/java/controller/ApplicationController.java:242-245 | A transfer from an account to itself succeeds and leaves the balance raised by the amount, since the second write wins. The ledger then no longer explains the balance. |
| Invariants.TransferIgnoresRowCounts | src/main/java/controller/ApplicationController.java:244-259 | When the sender's update affects no row, the transfer still commits and reports success: the receiver is credited and the sender not debited. |
| Invariants.TransferFailureAfterCommitKeepsEffect | src/main/java/controller/ApplicationController.java:258-274 | When re-enabling auto-commit throws, the transfer reports failure, yet the money has moved and the entry is in place. |
| Invariants.WithdrawKeepsNonNegative | src/main/java/controller/ApplicationController.java:166-172 | A withdrawal of any amount, on any store answers, keeps every balance non-negative. |
| Invariants.ReplenishKeepsNonNegative | src/main/java/controller/ApplicationController.java:120-133 | A replenishment of a non-negative amount keeps every balance non-negative. |
| Invariants.TransferKeepsNonNegative | src/main/java/controller/ApplicationController.java:232-245 | A transfer of a non-negative amount keeps every balance non-negative, whichever updates land and even to itself. |
| Invariants.NegativeTransferOverdrawsReceiver | src/main/java/controller/ApplicationController.java:232-247 | A negative amount passes the balance check and can drive the receiver below zero. |
| Invariants.RunKeepsConsistent | src/main/java/controller/ApplicationController.java:86-96 | Over any sequence of menu operations whose store answers are well behaved, balances and ledger stay in agreement. |
| Invariants.RunKeepsNonNegative | src/main/java/controller/ApplicationController.java:86-96 | Over any sequence of operations with non-negative replenishment and transfer amounts, on any store answers, no balance goes below zero. |
| Conventions.ReplenishEntryReadsAsReplenishment | src/main/java/controller/ApplicationController.java:127 | The entry a successful replenishment writes is classified by the check as a replenishment. |
| Conventions.WithdrawEntryReadsAsWithdrawal | src/main/java/controller/ApplicationController.java:180 | The entry a successful withdrawal writes is classified as a withdrawal. |
| Conventions.TransferEntryReadsAsTransfer | src/main/java/controller/ApplicationController.java:247 | The entry a successful transfer writes is classified as a transfer. |
| Conventions.RunWritesNoUnknown | src/main/java/view/CheckView.java:82-92 | No run of operations ever writes an entry the check would call an unknown operation. |
| Text.AlignRight | src/main/java/view/CheckView.java:64-71 | Padding exists exactly when the value fits. It then has exactly the field width, ends with the value and is spaces before it. |
| Text.AlignLeft | src/main/java/view/TransactionStatementView.java:81-82 | Padding exists exactly when the value fits. It then has exactly the field width, starts with the value and is spaces after it. |
| Text.AlignRightRoundTrip | src/main/java/view/CheckView.java:64-71 | Stripping the leading spaces of a right-aligned field gives back a value that does not start with a space. |
| Text.Decimal | src/main/java/view/CheckView.java:64-70 | `String.valueOf(long)` is never empty, starts with a minus sign exactly for a negative value, and is otherwise all digits. |
| Text.DecimalRoundTrip | src/main/java/view/CheckView.java:64-70 | Reading the printed id back as a number gives the id. |
| Text.LongWidth | src/main/java/view/CheckView.java:64-70 | Any 64-bit value prints in at most 20 characters, and a non-negative one in at most 19. |
| Text.LongMinWidth | src/main/java/view/CheckView.java:69 | `Long.MIN_VALUE` prints in 20 characters. |
| Text.UpToSpace | src/main/java/view/TransactionStatementView.java:130-132 | Returns the longest space-free prefix of a name: a prefix, with no space, followed by a space or the end. |
| Text.FirstWord | src/main/java/view/TransactionStatementView.java:130-132 | `split(" ")[0]` fails exactly on a non-empty all-space name and is otherwise the text before the first space. |
| CheckView.OperationTypeOf | src/main/java/view/CheckView.java:82-92 | Each of the four kinds holds exactly under its own condition on which ids are zero, so exactly one applies. |
| CheckView.Label | src/main/java/view/CheckView.java:83-91 | Each label is non-empty, is not led by a space and fits the 21-character type column. |
| CheckView.LabelsNameTheKind | src/main/java/view/CheckView.java:82-92 | The four printed labels are pairwise different, so the printed type names the kind. |
| CheckView.BankName | src/main/java/view/CheckView.java:60-61 | Bank id 0 gives the empty name with no lookup. A non-empty name comes from a lookup of a non-zero id. |
| CheckView.Check | src/main/java/view/CheckView.java:55-72 | A check exists exactly when every field fits its column. It then has 11 lines, from rule to footer: the title, then the transaction id, the date and time, the type, both bank names, both account ids and the amount, each right-aligned in its line after its caption. Each line is 40 characters wide for a 10-character date and 8-character time. |
| CheckView.StoredIdsFit | src/main/java/view/CheckView.java:64-70 | For non-negative 64-bit ids the id columns never overflow. Only the bank names and the amount can prevent a check. |
| CheckView.MinimalSenderIdHasNoCheck | src/main/java/view/CheckView.java:69 | `Long.MIN_VALUE` as the sender account makes `repeat` throw, so there is no check. |
| CheckView.CheckReadsBack | src/main/java/view/CheckView.java:64-71 | The transaction id, the type label and both account ids are recovered from their columns by dropping the padding. |
| CheckView.CheckReadsBackNames | src/main/java/view/CheckView.java:60-71 | Both bank names and the amount are recovered from their columns the same way, whenever they do not start with a space. |
| TransactionStatementView.BankHeading | src/main/java/view/TransactionStatementView.java:74 | A heading exists exactly when the bank name has at most 71 characters. The name then ends the line, is preceded by spaces, and its middle sits at column 35. |
| TransactionStatementView.PeriodStart | src/main/java/view/TransactionStatementView.java:99-114 | The start is never before the creation day. Option 1 gives max(request minus a month, creation), option 2 the same with a year, option 3 the creation day, and any other option today's date clamped the same way. |
| TransactionStatementView.OperationNote | src/main/java/view/TransactionStatementView.java:124-134 | As written: an empty receiver gives the withdrawal note whatever the sender, then an empty sender the replenishment note. Otherwise "to"/"from" follows the receiver's first word, depending on whether the receiver is the owner. |
| TransactionStatementView.IntendedOperationNote | src/main/java/view/TransactionStatementView.java:124-134 | Corrected: the same withdrawal and replenishment cases, and a transfer note that names the other party: the receiver of an outgoing transfer, the sender of an incoming one. |
| TransactionStatementView.IncomingNoteNamesOwner | src/main/java/view/TransactionStatementView.java:131-132 | On an incoming transfer the written note names the owner, and it fails to name the other party whenever the two first words differ. |
| TransactionStatementView.IncomingNoteExample | src/main/java/view/TransactionStatementView.java:131-132 | For "Ivan Petrov" paying "Anna Smirnova", the written note says "from Anna" and the corrected one "from Ivan". |
| TransactionStatementView.RecordAmount | src/main/java/view/TransactionStatementView.java:145-151 | The printed amount is the amount when the receiver is non-empty and is the owner, and its negation otherwise. |
| TransactionStatementView.NoteAgreesWithSign | src/main/java/view/TransactionStatementView.java:124-151 | On the owner's statement with positive amounts, a note reads as money in exactly when the printed amount is positive. This holds for the note the source prints and for the corrected one. |
| TransactionStatementView.RecordLine | src/main/java/view/TransactionStatementView.java:44 | A line exists exactly when the note has at most 41 characters. The date, the note column, the bar and the amount then sit at fixed columns. |
| TransactionStatementView.RecordLines | src/main/java/view/TransactionStatementView.java:78-84 | The statement lines exist exactly when every record's note, as written, exists and fits. Line i is then the record line of record i, in query order, with that note and the signed amount. |
| TransactionStatementView.IntendedRecordLines | src/main/java/view/TransactionStatementView.java:78-84 | The same lines built with the corrected note. |
| TransactionStatementView.StatementsDifferOnlyOnIncomingTransfers | src/main/java/view/TransactionStatementView.java:78-84 | A statement with no incoming transfer from a named sender prints the same lines with either note. |
| MoneyStatementView.Incoming | src/main/java/view/MoneyStatementView.java:99-101 | An incoming record is printed by the transaction statement with its own amount, and any other record with the amount negated. |
| MoneyStatementView.Totals | src/main/java/view/MoneyStatementView.java:70-83 | The income is the sum of the incoming amounts and the outcome minus the sum of the others. Income minus outcome is the sum of all amounts, and income plus outcome is the sum of the transaction statement's signed amounts. |
| MoneyStatementView.EveryRecordCountedOnce | src/main/java/view/MoneyStatementView.java:77-83 | Every record is counted exactly once, on one side. |
| MoneyStatementView.TotalsSigns | src/main/java/view/MoneyStatementView.java:70-83 | With non-negative amounts the income is at least 0 and the outcome at most 0. An empty list gives 0 on both sides. |
| MoneyStatementView.IncomingIffPositiveRecord | src/main/java/view/MoneyStatementView.java:99-101 | For a positive amount, a record is incoming exactly when the transaction statement prints it positive. |
| MoneyStatementView.SignedSumIsNet | src/main/java/view/MoneyStatementView.java:77-83 | The transaction statement's signed amounts add up to the incoming sum minus the sum of all other amounts, which is the money statement's income plus its outcome. |
| MoneyStatementView.TotalsLine | src/main/java/view/MoneyStatementView.java:44 | The totals line exists exactly when the income text has at most 18 characters. The income is then right-aligned in 18 columns, with the bar at column 25 and the outcome after it. |

## Left out

- Concurrency: the interest thread started by the controller and every `synchronized` block. The interest accrual itself is not part of this model. The account service it would run in does not have the shape the controller calls.
- The JDBC services and the connector: only their answers appear, as inputs (row counts, returned ids, where the connection throws). The insert, query and `getTransaction` re-read are not modelled.
- A rollback or auto-commit call that itself throws inside the transfer's catch block: only a message is printed, and the model treats the rollback as done.
- File output (`DocumentFileWriter`, `CheckFileWriter`), configuration reading and the console prompts. Of the menu loop (src/main/java/controller/ApplicationController.java:86-96), reading the option and leaving on option 5 are not modelled; the loop itself is `Invariants.Run` over a sequence of requests.
- `double` arithmetic and `%.2f`: amounts are exact integers, and the printed amount, date and time arrive as already formatted text.
- `LocalDate.now()`, `LocalDateTime.now()` and calendar arithmetic: today's date is a parameter, and month/year subtraction are function parameters.
- The statement header beyond the bank heading: the client name, the account and the dates are plain substitutions. The final `trim`/`stripTrailing` is also left out.
- `getAccountStatement`: it only chains a lookup, a query and the statement view, and all three are covered above or are store calls.
- The legacy `model/*` classes and the database tests.
- Controller.Transfer: reports `Done` once the tables have changed. The source then builds the check, and `getCheck` throws `IllegalArgumentException` when a bank name or the amount is too long for its column (src/main/java/view/CheckView.java:64-70). The transfer's catch takes only `SQLException`, so the exception leaves `start()` and no check is printed. The tables stay changed either way, and `CheckView.Check` returns `None` for exactly these inputs.
- Controller.Replenish: the same uncaught exception from `getCheck` can follow a successful replenishment (src/main/java/controller/ApplicationController.java:139-141); the model reports `Done`, and the tables are changed as it states.
- Controller.Withdraw: the same holds after a successful withdrawal (src/main/java/controller/ApplicationController.java:192-194).
- A failed account read: `getAccount` catches an `SQLException` and returns the default object with id 0 (src/main/java/controller/service/AccountService.java:89-107). The controller then reports a missing account, or a missing sender or receiver, for an account that exists. The model reads the account table faithfully, so it never produces these outcomes for a stored account.
- Text.AlignRight: measures a string in characters (code points), while Java's `length()` counts UTF-16 units. A name with a character above U+FFFF is padded differently in Java, or makes `repeat` throw where the model pads it.
- Text.AlignLeft: the same UTF-16 length difference applies to the note column.
- TransactionStatementView.BankHeading: the same UTF-16 length difference applies to the bank name.
- TransactionStatementView.RecordLine: the same UTF-16 length difference applies to the note.
- MoneyStatementView.TotalsLine: the same UTF-16 length difference applies to the income text.
- CheckView.Check: the same UTF-16 length difference applies to the bank names and the amount.
- Invariants.TransferKeepsConsistent: requires distinct accounts and both updates to land. For a self-transfer and for a lost update the source breaks the agreement, as SelfTransferRaisesBalance and TransferIgnoresRowCounts show.
- Invariants.TransferAllOrNothing: requires distinct accounts and both updates to land, for the same reason.
- Invariants.ReplenishKeepsConsistent: requires the compensating update to land after a failed insert, because the source never checks it (see ReplenishLostRollbackBreaksConsistency).
- Invariants.WithdrawKeepsConsistent: requires the compensating update to land after a failed insert, for the same reason.
- Invariants.ReplenishKeepsNonNegative: requires a non-negative amount, because the source accepts negative amounts.
- Invariants.TransferKeepsNonNegative: requires a non-negative amount (see NegativeTransferOverdrawsReceiver).

## Findings

| source | as written | input that shows it | evidently intended | confidence | as-written member | corrected member |
|---|---|---|---|---|---|---|
| src/main/java/view/TransactionStatementView.java:131-132 | The note of an incoming transfer is "Пополнение от " plus the first word of the receiver, who on this branch is the owner | Owner "Anna Smirnova" receives from "Ivan Petrov": the note reads "Пополнение от Anna" | The note names the sender: "Пополнение от Ivan" | high, not executed | TransactionStatementView.OperationNote, used by RecordLines (shown by IncomingNoteNamesOwner and IncomingNoteExample) | TransactionStatementView.IntendedOperationNote, used by IntendedRecordLines |
