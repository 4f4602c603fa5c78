/** The bank check printed after every operation: the classification of a
    ledger entry by its sender and receiver ids, the bank-name guard, and
    the fixed-width template every field is right-aligned into. */
module CheckView {

  import opened Wrappers
  import opened Text

  /** The four kinds of entry the check names. */
  datatype OperationType = Transfer | Replenishment | Withdrawal | Unknown

  /** Classifies an entry by which of its ids is the "nobody" id 0. */
  function OperationTypeOf(senderId: int, receiverId: int): (t: OperationType)
    ensures t == Transfer <==> senderId != 0 && receiverId != 0
    ensures t == Replenishment <==> senderId == 0 && receiverId != 0
    ensures t == Withdrawal <==> senderId != 0 && receiverId == 0
    ensures t == Unknown <==> senderId == 0 && receiverId == 0
  {
    if senderId != 0 && receiverId != 0 then Transfer
    else if senderId == 0 && receiverId != 0 then Replenishment
    else if senderId != 0 then Withdrawal
    else Unknown
  }

  /** The text the check prints for each kind: never empty, never led by a
      space, and within the 21-character type column. */
  function Label(t: OperationType): (name: string)
    ensures 0 < |name| <= 21 && name[0] != ' '
  {
    match t
    case Transfer => "Перевод"
    case Replenishment => "Пополнение счёта"
    case Withdrawal => "Снятие средств"
    case Unknown => "Неизвестная операция"
  }

  /** The four labels are different, so the printed type names the kind. */
  lemma LabelsNameTheKind(t: OperationType, u: OperationType)
    ensures Label(t) == Label(u) <==> t == u
  {
  }

  /** The bank name printed for a bank id: looked up only for a non-zero
      id; a lookup that finds nothing yields the default bank's empty name. */
  function BankName(banks: map<int, string>, bankId: int): (name: string)
    ensures bankId == 0 ==> name == ""
    ensures name != "" ==> bankId != 0 && bankId in banks && name == banks[bankId]
    ensures bankId != 0 && bankId in banks ==> name == banks[bankId]
  {
    if bankId != 0 then (if bankId in banks then banks[bankId] else "") else ""
  }

  const Rule := "----------------------------------------"
  const Title := "|            Банковский чек            |"
  const Footer := "|--------------------------------------|"

  /** One template line: a caption, a padded field, a closing text. */
  function Line(caption: string, field: string, close: string): (r: string)
    ensures |r| == |caption| + |field| + |close|
    ensures r[|caption|..|caption| + |field|] == field
  {
    var r := caption + field + close;
    assert r[|caption|..|caption| + |field|] == field;
    r
  }

  /** Every field fits its column: transaction id (32), sender bank (19),
      receiver bank (20), sender account (19), receiver account (20),
      amount (26). The type label always fits its 21 columns. */
  predicate Fits(txId: int, banks: map<int, string>, senderBankId: int, receiverBankId: int,
                 senderId: int, receiverId: int, amountText: string)
  {
    && |Decimal(txId)| <= 32
    && |BankName(banks, senderBankId)| <= 19
    && |BankName(banks, receiverBankId)| <= 20
    && |Decimal(senderId)| <= 19
    && |Decimal(receiverId)| <= 20
    && |amountText| <= 26
  }

  /** The lines of the check. The date and time arrive already formatted;
      a field wider than its column makes `repeat` throw, so there is no
      check then. Otherwise every field sits right-aligned in its line. */
  function Check(txId: int, dateText: string, timeText: string, banks: map<int, string>,
                 senderBankId: int, receiverBankId: int, senderId: int, receiverId: int,
                 amountText: string): (r: Option<seq<string>>)
    ensures r.Some? <==> Fits(txId, banks, senderBankId, receiverBankId, senderId, receiverId, amountText)
    ensures r.Some? ==>
      && |r.value| == 11
      && r.value[0] == Rule && r.value[1] == Title && r.value[10] == Footer
      && r.value[2] == Line(IdCaption, AlignRight(32, Decimal(txId)).value, " |")
      && r.value[3] == Line("| " + dateText, Spaces(18), timeText + " |")
      && r.value[4] == Line(KindCaption, AlignRight(21, Label(OperationTypeOf(senderId, receiverId))).value, " |")
      && r.value[5] == Line(SenderBankCaption, AlignRight(19, BankName(banks, senderBankId)).value, " |")
      && r.value[6] == Line(ReceiverBankCaption, AlignRight(20, BankName(banks, receiverBankId)).value, " |")
      && r.value[7] == Line(SenderCaption, AlignRight(19, Decimal(senderId)).value, " |")
      && r.value[8] == Line(ReceiverCaption, AlignRight(20, Decimal(receiverId)).value, " |")
      && r.value[9] == Line(AmountCaption, AlignRight(26, amountText).value, " BYN |")
    ensures r.Some? && |dateText| == 10 && |timeText| == 8 ==>
      forall i | 0 <= i < |r.value| :: |r.value[i]| == 40
  {
    var id := AlignRight(32, Decimal(txId));
    var kind := AlignRight(21, Label(OperationTypeOf(senderId, receiverId)));
    var senderBank := AlignRight(19, BankName(banks, senderBankId));
    var receiverBank := AlignRight(20, BankName(banks, receiverBankId));
    var sender := AlignRight(19, Decimal(senderId));
    var receiver := AlignRight(20, Decimal(receiverId));
    var amount := AlignRight(26, amountText);
    if id.None? || kind.None? || senderBank.None? || receiverBank.None?
       || sender.None? || receiver.None? || amount.None?
    then None
    else
      Some(Render(dateText, timeText, id.value, kind.value, senderBank.value, receiverBank.value,
                  sender.value, receiver.value, amount.value))
  }

  /** The template filled with already padded fields. */
  function Render(dateText: string, timeText: string, id: string, kind: string, senderBank: string,
                  receiverBank: string, sender: string, receiver: string, amount: string): (r: seq<string>)
    ensures |r| == 11 && r[0] == Rule && r[1] == Title && r[10] == Footer
    ensures r[2] == Line(IdCaption, id, " |")
    ensures r[3] == Line("| " + dateText, Spaces(18), timeText + " |")
    ensures r[4] == Line(KindCaption, kind, " |")
    ensures r[5] == Line(SenderBankCaption, senderBank, " |")
    ensures r[6] == Line(ReceiverBankCaption, receiverBank, " |")
    ensures r[7] == Line(SenderCaption, sender, " |")
    ensures r[8] == Line(ReceiverCaption, receiver, " |")
    ensures r[9] == Line(AmountCaption, amount, " BYN |")
    ensures |id| == 32 && |kind| == 21 && |senderBank| == 19 && |receiverBank| == 20
            && |sender| == 19 && |receiver| == 20 && |amount| == 26
            && |dateText| == 10 && |timeText| == 8
        ==> forall i | 0 <= i < |r| :: |r[i]| == 40
  {
    [ Rule,
      Title,
      Line(IdCaption, id, " |"),
      Line("| " + dateText, Spaces(18), timeText + " |"),
      Line(KindCaption, kind, " |"),
      Line(SenderBankCaption, senderBank, " |"),
      Line(ReceiverBankCaption, receiverBank, " |"),
      Line(SenderCaption, sender, " |"),
      Line(ReceiverCaption, receiver, " |"),
      Line(AmountCaption, amount, " BYN |"),
      Footer ]
  }

  const IdCaption := "| Чек:"
  const KindCaption := "| Тип транзакции:"
  const SenderBankCaption := "| Банк отправителя:"
  const ReceiverBankCaption := "| Банк получателя:"
  const SenderCaption := "| Счёт отправителя:"
  const ReceiverCaption := "| Счёт получателя:"
  const AmountCaption := "| Сумма:"

  /** Ids the store hands out are non-negative 64-bit values, and every one
      of them fits its column: a check then exists exactly when the bank
      names and the amount fit. */
  lemma StoredIdsFit(txId: int, banks: map<int, string>, senderBankId: int, receiverBankId: int,
                     senderId: int, receiverId: int, amountText: string)
    requires 0 <= txId < 0x8000_0000_0000_0000
    requires 0 <= senderId < 0x8000_0000_0000_0000
    requires 0 <= receiverId < 0x8000_0000_0000_0000
    ensures Fits(txId, banks, senderBankId, receiverBankId, senderId, receiverId, amountText) <==>
      && |BankName(banks, senderBankId)| <= 19
      && |BankName(banks, receiverBankId)| <= 20
      && |amountText| <= 26
  {
    LongWidth(txId);
    LongWidth(senderId);
    LongWidth(receiverId);
  }

  /** `Long.MIN_VALUE` as sender account is the one 64-bit id whose column
      overflows: no check can be printed for it. */
  lemma MinimalSenderIdHasNoCheck(txId: int, dateText: string, timeText: string, banks: map<int, string>,
                                  senderBankId: int, receiverBankId: int, receiverId: int, amountText: string)
    ensures Check(txId, dateText, timeText, banks, senderBankId, receiverBankId,
                  -0x8000_0000_0000_0000, receiverId, amountText).None?
  {
    LongMinWidth();
  }

  /** A reader of the check recovers the transaction id, the type and both
      account ids from their columns by dropping the padding spaces. */
  lemma CheckReadsBack(txId: int, dateText: string, timeText: string, banks: map<int, string>,
                       senderBankId: int, receiverBankId: int, senderId: int, receiverId: int,
                       amountText: string)
    requires Check(txId, dateText, timeText, banks, senderBankId, receiverBankId, senderId, receiverId, amountText).Some?
    ensures var lines := Check(txId, dateText, timeText, banks, senderBankId, receiverBankId, senderId, receiverId, amountText).value;
      && StripLeading(lines[2][6..38]) == Decimal(txId)
      && StripLeading(lines[4][17..38]) == Label(OperationTypeOf(senderId, receiverId))
      && StripLeading(lines[7][19..38]) == Decimal(senderId)
      && StripLeading(lines[8][18..38]) == Decimal(receiverId)
  {
    var lines := Check(txId, dateText, timeText, banks, senderBankId, receiverBankId, senderId, receiverId, amountText).value;
    assert |IdCaption| == 6 && |KindCaption| == 17 && |SenderCaption| == 19 && |ReceiverCaption| == 18;
    ColumnReadsBack(lines[2], IdCaption, 32, Decimal(txId), " |");
    ColumnReadsBack(lines[4], KindCaption, 21, Label(OperationTypeOf(senderId, receiverId)), " |");
    ColumnReadsBack(lines[7], SenderCaption, 19, Decimal(senderId), " |");
    ColumnReadsBack(lines[8], ReceiverCaption, 20, Decimal(receiverId), " |");
  }

  /** The bank names and the amount read back the same way, whenever they
      do not themselves start with a space. */
  lemma CheckReadsBackNames(txId: int, dateText: string, timeText: string, banks: map<int, string>,
                            senderBankId: int, receiverBankId: int, senderId: int, receiverId: int,
                            amountText: string)
    requires Check(txId, dateText, timeText, banks, senderBankId, receiverBankId, senderId, receiverId, amountText).Some?
    ensures var lines := Check(txId, dateText, timeText, banks, senderBankId, receiverBankId, senderId, receiverId, amountText).value;
      && (LeadsWithNonSpace(BankName(banks, senderBankId)) ==> StripLeading(lines[5][19..38]) == BankName(banks, senderBankId))
      && (LeadsWithNonSpace(BankName(banks, receiverBankId)) ==> StripLeading(lines[6][18..38]) == BankName(banks, receiverBankId))
      && (LeadsWithNonSpace(amountText) ==> StripLeading(lines[9][8..34]) == amountText)
  {
    var lines := Check(txId, dateText, timeText, banks, senderBankId, receiverBankId, senderId, receiverId, amountText).value;
    assert |SenderBankCaption| == 19 && |ReceiverBankCaption| == 18 && |AmountCaption| == 8;
    PaddedColumnReadsBack(lines[5], SenderBankCaption, 19, BankName(banks, senderBankId), " |");
    PaddedColumnReadsBack(lines[6], ReceiverBankCaption, 20, BankName(banks, receiverBankId), " |");
    PaddedColumnReadsBack(lines[9], AmountCaption, 26, amountText, " BYN |");
  }

  /** A value a reader can tell apart from its padding: empty, or not led
      by a space. */
  predicate LeadsWithNonSpace(s: string)
  {
    |s| == 0 || s[0] != ' '
  }

  /** One line of the template gives back its value. */
  lemma ColumnReadsBack(line: string, caption: string, width: int, value: string, close: string)
    requires |value| <= width && LeadsWithNonSpace(value)
    requires line == Line(caption, AlignRight(width, value).value, close)
    ensures StripLeading(line[|caption|..|caption| + width]) == value
  {
    AlignRightRoundTrip(width, value);
  }

  /** The same for a value that may start with a space: then nothing is
      promised. */
  lemma PaddedColumnReadsBack(line: string, caption: string, width: int, value: string, close: string)
    requires |value| <= width
    requires line == Line(caption, AlignRight(width, value).value, close)
    ensures LeadsWithNonSpace(value) ==> StripLeading(line[|caption|..|caption| + width]) == value
  {
    if LeadsWithNonSpace(value) {
      ColumnReadsBack(line, caption, width, value, close);
    }
  }
}
