/** The transaction statement of one account: the start of the period it
    covers, the note and the signed amount of every record, and the record
    line the note is padded into. Dates are day numbers; their printed form
    and the printed amounts arrive as functions. */
module TransactionStatementView {

  import opened Wrappers
  import opened Text
  import opened Ledger

  function Max(a: int, b: int): int
  {
    if a < b then b else a
  }

  /** The first day of the statement period for the chosen interval option:
      one month back (1), one year back (2) or the account's creation (3)
      from the request day; any other option keeps the separately read
      current day. The start is never before the account's creation. */
  function PeriodStart(option: int, creation: int, request: int, today: int,
                       monthBefore: int -> int, yearBefore: int -> int): (start: int)
    ensures start >= creation
    ensures option == 1 ==> start == Max(monthBefore(request), creation)
    ensures option == 2 ==> start == Max(yearBefore(request), creation)
    ensures option == 3 ==> start == creation
    ensures option !in {1, 2, 3} ==> start == Max(today, creation)
  {
    var candidate :=
      if option == 1 then monthBefore(request)
      else if option == 2 then yearBefore(request)
      else if option == 3 then creation
      else today;
    if candidate < creation then creation else candidate
  }

  /** The bank name over a statement: `35 - |bank| / 2` spaces, then the
      name, so that the middle of the name sits at column 35. A name of 72
      characters or more gives a negative count and `repeat` throws. */
  function BankHeading(bank: string): (r: Option<string>)
    ensures r.Some? <==> |bank| <= 71
    ensures r.Some? ==>
      && |r.value| - |bank| + |bank| / 2 == 35
      && r.value[|r.value| - |bank|..] == bank
      && AllSpaces(r.value[..|r.value| - |bank|])
  {
    AlignRight(35 - |bank| / 2 + |bank|, bank)
  }

  const WithdrawalNote := "Снятие средств"
  const ReplenishmentNote := "Пополнение счёта"
  const TransferPrefix := "Перевод для "
  const IncomingPrefix := "Пополнение от "

  /** A fixed prefix followed by a first word, when there is one. */
  function Named(prefix: string, word: Option<string>): Option<string>
  {
    match word
    case None => None
    case Some(w) => Some(prefix + w)
  }

  /** The note of a record as the source writes it. A missing receiver
      makes it a withdrawal whatever the sender, a missing sender a
      replenishment; otherwise it is a transfer "to" or "from", and in both
      cases the name that follows is the receiver's first word. */
  function OperationNote(rec: StatementRecord, owner: string): (note: Option<string>)
    ensures rec.receiver == "" ==> note == Some(WithdrawalNote)
    ensures rec.receiver != "" && rec.sender == "" ==> note == Some(ReplenishmentNote)
    ensures rec.receiver != "" && rec.sender != "" ==>
      && (note.Some? <==> !AllSpaces(rec.receiver))
      && (note.Some? ==> note.value == (if rec.receiver != owner then TransferPrefix else IncomingPrefix)
                                       + UpToSpace(rec.receiver))
  {
    if rec.receiver == "" then Some(WithdrawalNote)
    else if rec.sender == "" then Some(ReplenishmentNote)
    else if rec.receiver != owner then Named(TransferPrefix, FirstWord(rec.receiver))
    else Named(IncomingPrefix, FirstWord(rec.receiver))
  }

  /** The other party of a transfer as seen from the owner's statement:
      the sender of an incoming transfer, the receiver of an outgoing one. */
  function Counterparty(rec: StatementRecord, owner: string): string
  {
    if rec.receiver == owner then rec.sender else rec.receiver
  }

  /** The note of a transfer names its other party: "to" the receiver of an
      outgoing transfer, "from" the sender of an incoming one. */
  ghost predicate NamesCounterparty(rec: StatementRecord, owner: string, note: Option<string>)
  {
    FirstWord(Counterparty(rec, owner)).Some? ==>
      note == Some((if rec.receiver != owner then TransferPrefix else IncomingPrefix)
                   + FirstWord(Counterparty(rec, owner)).value)
  }

  /** The note with the "from" name taken from the sender. */
  function IntendedOperationNote(rec: StatementRecord, owner: string): (note: Option<string>)
    ensures rec.receiver == "" ==> note == Some(WithdrawalNote)
    ensures rec.receiver != "" && rec.sender == "" ==> note == Some(ReplenishmentNote)
    ensures rec.receiver != "" && rec.sender != "" ==> NamesCounterparty(rec, owner, note)
  {
    if rec.receiver == "" then Some(WithdrawalNote)
    else if rec.sender == "" then Some(ReplenishmentNote)
    else if rec.receiver != owner then Named(TransferPrefix, FirstWord(rec.receiver))
    else Named(IncomingPrefix, FirstWord(rec.sender))
  }

  /** The source's note names the owner, not the sender, on an incoming
      transfer: whenever the sender's first word differs from the owner's,
      the note does not name the other party. */
  lemma IncomingNoteNamesOwner(rec: StatementRecord, owner: string)
    requires rec.sender != "" && rec.receiver != "" && rec.receiver == owner
    requires !AllSpaces(rec.sender) && !AllSpaces(rec.receiver)
    requires UpToSpace(rec.sender) != UpToSpace(rec.receiver)
    ensures OperationNote(rec, owner) == Some(IncomingPrefix + UpToSpace(owner))
    ensures !NamesCounterparty(rec, owner, OperationNote(rec, owner))
  {
    assert |IncomingPrefix| == 14;
    var written := IncomingPrefix + UpToSpace(rec.receiver);
    var intended := IncomingPrefix + UpToSpace(rec.sender);
    assert written[14..] == UpToSpace(rec.receiver);
    assert intended[14..] == UpToSpace(rec.sender);
  }

  /** A concrete statement record that shows it: "Ivan Petrov" sends to the
      owner "Anna Smirnova", and the note reads "from Anna". */
  lemma IncomingNoteExample()
    ensures OperationNote(StatementRecord(0, "Ivan Petrov", "Anna Smirnova", 100), "Anna Smirnova")
      == Some(IncomingPrefix + "Anna")
    ensures IntendedOperationNote(StatementRecord(0, "Ivan Petrov", "Anna Smirnova", 100), "Anna Smirnova")
      == Some(IncomingPrefix + "Ivan")
  {
    var anna := "Anna Smirnova";
    var ivan := "Ivan Petrov";
    FirstWordOfAnna();
    FirstWordOfIvan();
    var rec := StatementRecord(0, ivan, anna, 100);
    assert OperationNote(rec, anna) == Named(IncomingPrefix, FirstWord(anna));
    assert IntendedOperationNote(rec, anna) == Named(IncomingPrefix, FirstWord(ivan));
  }

  lemma FirstWordOfAnna()
    ensures FirstWord("Anna Smirnova") == Some("Anna")
  {
    var anna := "Anna Smirnova";
    assert anna[0] == 'A' && anna[1] == 'n' && anna[2] == 'n' && anna[3] == 'a' && anna[4] == ' ';
    FirstWordEndsAt(anna, 4);
    assert anna[..4] == "Anna";
  }

  lemma FirstWordOfIvan()
    ensures FirstWord("Ivan Petrov") == Some("Ivan")
  {
    var ivan := "Ivan Petrov";
    assert ivan[0] == 'I' && ivan[1] == 'v' && ivan[2] == 'a' && ivan[3] == 'n' && ivan[4] == ' ';
    FirstWordEndsAt(ivan, 4);
    assert ivan[..4] == "Ivan";
  }

  /** The first word of a name whose first space is at position k. */
  lemma FirstWordEndsAt(s: string, k: nat)
    requires 0 < k < |s| && s[k] == ' '
    requires forall i | 0 <= i < k :: s[i] != ' '
    ensures FirstWord(s) == Some(s[..k])
  {
    assert s[0] != ' ';
  }

  /** The amount printed for a record: positive for money coming into the
      owner's account, negative for everything else. */
  function RecordAmount(rec: StatementRecord, owner: string): (signed: int)
    ensures signed == rec.amount || signed == -rec.amount
    ensures rec.receiver != "" && rec.receiver == owner ==> signed == rec.amount
    ensures rec.receiver == "" || rec.receiver != owner ==> signed == -rec.amount
  {
    if rec.receiver == "" || rec.receiver != owner then -1 * rec.amount else rec.amount
  }

  /** A note that reads as money coming in: a replenishment, or a
      transfer "from" someone. */
  predicate ReadsAsIncome(note: string)
  {
    note == ReplenishmentNote || (|note| >= |IncomingPrefix| && note[..|IncomingPrefix|] == IncomingPrefix)
  }

  /** On the owner's statement (every record names the owner on one side and
      amounts are positive), the note reads as money in exactly when the
      printed amount is positive: for the note the source prints and for
      the corrected one alike. */
  lemma NoteAgreesWithSign(rec: StatementRecord, owner: string)
    requires owner != "" && rec.amount > 0
    requires rec.sender == owner || rec.receiver == owner
    ensures OperationNote(rec, owner).Some? ==>
      (ReadsAsIncome(OperationNote(rec, owner).value) <==> RecordAmount(rec, owner) > 0)
    ensures IntendedOperationNote(rec, owner).Some? ==>
      (ReadsAsIncome(IntendedOperationNote(rec, owner).value) <==> RecordAmount(rec, owner) > 0)
  {
    assert ReplenishmentNote[1] == 'о' && IncomingPrefix[1] == 'о';
    if rec.receiver == "" {
      assert WithdrawalNote[1] == 'н';
    } else if rec.receiver != owner {
      assert TransferPrefix[1] == 'е';
      if OperationNote(rec, owner).Some? {
        assert OperationNote(rec, owner).value[1] == 'е';
      }
      if IntendedOperationNote(rec, owner).Some? {
        assert IntendedOperationNote(rec, owner).value[1] == 'е';
      }
    } else if rec.sender != "" {
      if OperationNote(rec, owner).Some? {
        assert OperationNote(rec, owner).value[..|IncomingPrefix|] == IncomingPrefix;
      }
      if IntendedOperationNote(rec, owner).Some? {
        assert IntendedOperationNote(rec, owner).value[..|IncomingPrefix|] == IncomingPrefix;
      }
    }
  }

  /** One line of the statement: the date, the note left-aligned in 41
      columns, the signed amount. A note longer than 41 characters makes
      `repeat` throw. */
  function RecordLine(dateText: string, note: string, amountText: string): (line: Option<string>)
    ensures line.Some? <==> |note| <= 41
    ensures line.Some? ==>
      && |line.value| == |dateText| + 50 + |amountText|
      && line.value[..|dateText|] == dateText
      && line.value[|dateText| + 3..|dateText| + 44] == AlignLeft(note, 41).value
      && line.value[|dateText| + 44] == '|'
      && line.value[|dateText| + 46..|dateText| + 46 + |amountText|] == amountText
  {
    match AlignLeft(note, 41)
    case None => None
    case Some(column) =>
      var line := dateText + " | " + column + "| " + amountText + " BYN";
      assert line[|dateText| + 3..|dateText| + 44] == column;
      assert line[|dateText| + 46..|dateText| + 46 + |amountText|] == amountText;
      Some(line)
  }

  /** The record lines of a statement with the notes `notes` writes, in
      query order. Any record whose note cannot be built or does not fit
      stops the whole statement. */
  function LinesWith(notes: (StatementRecord, string) -> Option<string>, records: seq<StatementRecord>,
                     owner: string, dateText: int -> string, amountText: int -> string): (lines: Option<seq<string>>)
    ensures lines.Some? <==>
      forall i | 0 <= i < |records| ::
        notes(records[i], owner).Some? && |notes(records[i], owner).value| <= 41
    ensures lines.Some? ==>
      && |lines.value| == |records|
      && forall i | 0 <= i < |records| ::
           lines.value[i] == RecordLine(dateText(records[i].day), notes(records[i], owner).value,
                                        amountText(RecordAmount(records[i], owner))).value
  {
    if |records| == 0 then Some([])
    else
      var rec := records[|records| - 1];
      match LinesWith(notes, records[..|records| - 1], owner, dateText, amountText)
      case None => None
      case Some(init) =>
        match notes(rec, owner)
        case None => None
        case Some(note) =>
          match RecordLine(dateText(rec.day), note, amountText(RecordAmount(rec, owner)))
          case None => None
          case Some(line) => Some(init + [line])
  }

  /** The record lines the source prints: one per record, with the note as
      written and the signed amount. */
  function RecordLines(records: seq<StatementRecord>, owner: string,
                       dateText: int -> string, amountText: int -> string): (lines: Option<seq<string>>)
    ensures lines.Some? <==>
      forall i | 0 <= i < |records| ::
        OperationNote(records[i], owner).Some? && |OperationNote(records[i], owner).value| <= 41
    ensures lines.Some? ==>
      && |lines.value| == |records|
      && forall i | 0 <= i < |records| ::
           lines.value[i] == RecordLine(dateText(records[i].day), OperationNote(records[i], owner).value,
                                        amountText(RecordAmount(records[i], owner))).value
  {
    LinesWith(OperationNote, records, owner, dateText, amountText)
  }

  /** The record lines with the corrected note. */
  function IntendedRecordLines(records: seq<StatementRecord>, owner: string,
                               dateText: int -> string, amountText: int -> string): (lines: Option<seq<string>>)
    ensures lines.Some? <==>
      forall i | 0 <= i < |records| ::
        IntendedOperationNote(records[i], owner).Some? && |IntendedOperationNote(records[i], owner).value| <= 41
    ensures lines.Some? ==>
      && |lines.value| == |records|
      && forall i | 0 <= i < |records| ::
           lines.value[i] == RecordLine(dateText(records[i].day), IntendedOperationNote(records[i], owner).value,
                                        amountText(RecordAmount(records[i], owner))).value
  {
    LinesWith(IntendedOperationNote, records, owner, dateText, amountText)
  }

  /** An incoming transfer from a named sender is the only record the two
      notes treat differently: a statement without one prints the same
      lines either way. */
  lemma StatementsDifferOnlyOnIncomingTransfers(records: seq<StatementRecord>, owner: string,
                                                dateText: int -> string, amountText: int -> string)
    requires forall i | 0 <= i < |records| ::
      !(records[i].sender != "" && records[i].receiver != "" && records[i].receiver == owner)
    ensures RecordLines(records, owner, dateText, amountText) == IntendedRecordLines(records, owner, dateText, amountText)
  {
    var written := RecordLines(records, owner, dateText, amountText);
    var intended := IntendedRecordLines(records, owner, dateText, amountText);
    assert forall i | 0 <= i < |records| :: OperationNote(records[i], owner) == IntendedOperationNote(records[i], owner);
    if written.Some? {
      assert written.value == intended.value;
    }
  }
}
