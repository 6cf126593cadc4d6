/** Model of internal/bank/bancolombia/bank.go, the older generation of the
    Bancolombia parser: it works on raw IMAP messages, checks the sender as
    well as the body, has four rules and never sets the transaction kind. */
module BancolombiaLegacy {
  import opened Wrappers
  import GoInts
  import opened RegexpUtil
  import SyncCommon
  import SyncTypes
  import Currency
  import BancolombiaCurrency

  /** The IMAP envelope fields the parser reads: sender addresses and date (seconds). */
  datatype Envelope = Envelope(from: seq<string>, date: int)

  /** The embedded `*imap.Message`: sequence number and a possibly nil envelope. */
  datatype ImapMessage = ImapMessage(seqNum: GoInts.Uint32, envelope: Option<Envelope>)

  /** `imaptypes.Message`: a possibly nil `*imap.Message` plus the raw body text. */
  datatype Message = Message(message: Option<ImapMessage>, rawBody: string)

  /** The only sender this generation accepts. */
  const Sender: string := "alertasynotificaciones@notificacionesbancolombia.com"

  const NoMatch: string := "message did not match any regexp from Bancolombia"
  const MissingFields: string := "message does not contain all required fields"

  const TypeValuePlaceAccount: seq<string> := ["", "type", "value", "place", "account"]
  const TypeValueAccountPlace: seq<string> := ["", "type", "value", "account", "place"]

  /** The rule patterns, named by their place in `regexMatching`.  The engine
      is keyed by these names; `Source` gives each one's text in Go regexp
      syntax. */
  datatype Pattern = Pattern1 | Pattern2 | Pattern3 | Pattern4

  function Source(p: Pattern): string
  {
    match p
    case Pattern1 => "Bancolombia le informa (?P<type>\\w+) por \\$(?P<value>[0-9,\\.]+) a (?P<place>.+) desde (?:cta|T\\.CRED) \\*(?P<account>\\d{4})\\."
    case Pattern2 => "Bancolombia le informa (?P<type>\\w+) por \\$(?P<value>[0-9,\\.]+) en (?P<place>[^\\.]+)\\..+T\\.Cred \\*(?P<account>\\d{4})\\."
    case Pattern3 => "Bancolombia le informa (?P<type>\\w+) por \\$(?P<value>[0-9,\\.]+) en (?P<place>.+)\\..+T\\.(?:Cred|Deb) \\*(?P<account>\\d{4})\\."
    case Pattern4 => "Bancolombia le informa (?P<type>\\w+) por \\$(?P<value>[0-9,\\.]+) desde cta \\*(?P<account>\\d{4}).+cta (?P<place>\\d{11,16})\\."
  }

  /** `regexMatching`: the four patterns in the order they are tried. */
  function Rules(): (rules: seq<Regexp<Pattern>>)
    ensures |rules| == 4
  {
    [ Regexp(Pattern1, TypeValuePlaceAccount),
      Regexp(Pattern2, TypeValuePlaceAccount),
      Regexp(Pattern3, TypeValuePlaceAccount),
      Regexp(Pattern4, TypeValueAccountPlace) ]
  }

  /** Some address of the list is the bank's sender. */
  function HasSender(from: seq<string>): (b: bool)
    ensures b <==> exists i :: 0 <= i < |from| && from[i] == Sender
  {
    Sender in from
  }

  /** `FilterMessage`: a message with an envelope, sent by the bank, whose body
      matches some rule.  A nil message or envelope is rejected without being read. */
  function FilterMessage(engine: Engine<Pattern>, msg: Message): (keep: bool)
    ensures keep <==>
              && msg.message.Some? && msg.message.value.envelope.Some?
              && (exists i :: 0 <= i < |msg.message.value.envelope.value.from| && msg.message.value.envelope.value.from[i] == Sender)
              && (exists i :: 0 <= i < |Rules()| && Matches(engine, Rules()[i], msg.rawBody))
  {
    if msg.message.None? || msg.message.value.envelope.None? then false
    else if !HasSender(msg.message.value.envelope.value.from) then false
    else SyncCommon.MatchesAnyRegexp(engine, Rules(), msg.rawBody).found
  }

  /** `getValueFromText` of this generation: the same decimal-first reading, with
      the amount stored as the currency's rate. */
  function GetValueFromText(s: string): (r: Result<SyncTypes.Currency>)
    ensures r.Ok? <==> BancolombiaCurrency.GetValueFromText(s).Ok?
    ensures r.Ok? ==> r.value == SyncTypes.Currency(Currency.COP, Some(BancolombiaCurrency.GetValueFromText(s).value.hundredths))
  {
    match BancolombiaCurrency.GetValueFromText(s)
    case Err(e) => Err(e)
    case Ok(a) => Ok(SyncTypes.Currency(a.code, Some(a.hundredths)))
  }

  /** What parsing does with the rule `re` once it was selected: the four
      required groups must all be captured and the amount must parse; only
      then are the message's sequence number and envelope date read, which
      panics when either is nil.  The kind is never assigned, so it is Expense. */
  function Parse(engine: Engine<Pattern>, msg: Message, re: Regexp<Pattern>): (r: Exec<Result<SyncTypes.TransactionInfo>>)
    ensures var f := SyncCommon.ExtractFieldsStringWithRegexp(engine, msg.rawBody, re);
            !SyncCommon.ContainsAllRequiredFields(f) ==> r == Done(Err(MissingFields))
    ensures var f := SyncCommon.ExtractFieldsStringWithRegexp(engine, msg.rawBody, re);
            SyncCommon.ContainsAllRequiredFields(f) && GetValueFromText(f["value"]).Err? ==>
              r == Done(Err(GetValueFromText(f["value"]).error))
    ensures var f := SyncCommon.ExtractFieldsStringWithRegexp(engine, msg.rawBody, re);
            r.Panicked? <==> SyncCommon.ContainsAllRequiredFields(f) && GetValueFromText(f["value"]).Ok?
                             && (msg.message.None? || msg.message.value.envelope.None?)
    ensures r.Panicked? ==> r.reason == NilDereference
    ensures var f := SyncCommon.ExtractFieldsStringWithRegexp(engine, msg.rawBody, re);
            (SyncCommon.ContainsAllRequiredFields(f) && GetValueFromText(f["value"]).Ok?
             && msg.message.Some? && msg.message.value.envelope.Some?) ==> r.Done? && r.value.Ok?
    ensures var f := SyncCommon.ExtractFieldsStringWithRegexp(engine, msg.rawBody, re);
            r.Done? && r.value.Ok? ==>
              && SyncCommon.ContainsAllRequiredFields(f)
              && msg.message.Some? && msg.message.value.envelope.Some?
              && GetValueFromText(f["value"]) == Ok(r.value.value.value)
              && r.value.value.msgId == msg.message.value.seqNum
              && r.value.value.date == msg.message.value.envelope.value.date
              && r.value.value.kind == SyncTypes.Expense
              && r.value.value.action == f["type"] && r.value.value.place == f["place"]
              && r.value.value.account == f["account"]
  {
    var result := SyncCommon.ExtractFieldsStringWithRegexp(engine, msg.rawBody, re);
    if !SyncCommon.ContainsAllRequiredFields(result) then Done(Err(MissingFields))
    else
      match GetValueFromText(result["value"])
      case Err(e) => Done(Err(e))
      case Ok(value) =>
        if msg.message.None? || msg.message.value.envelope.None? then Panicked(NilDereference)
        else
          Done(Ok(SyncTypes.TransactionInfo(msg.message.value.seqNum, SyncTypes.Expense, result["type"], result["place"],
                                            value, result["account"], msg.message.value.envelope.value.date)))
  }

  /** `ExtractTransactionInfoFromMessage`.  The kind field is never assigned, so
      it keeps Go's zero value, Expense; the captured word goes to `action`.  The
      sequence number and date are read only after parsing succeeded, and a nil
      message or envelope at that point panics. */
  function ExtractTransactionInfoFromMessage(engine: Engine<Pattern>, msg: Message): (r: Exec<Result<SyncTypes.TransactionInfo>>)
    ensures (forall i :: 0 <= i < |Rules()| ==> !Matches(engine, Rules()[i], msg.rawBody)) ==> r == Done(Err(NoMatch))
    ensures forall i :: 0 <= i < |Rules()| && Matches(engine, Rules()[i], msg.rawBody)
                        && (forall j :: 0 <= j < i ==> !Matches(engine, Rules()[j], msg.rawBody)) ==>
              r == Parse(engine, msg, Rules()[i])
  {
    var sel := SyncCommon.MatchesAnyRegexp(engine, Rules(), msg.rawBody);
    if !sel.found then Done(Err(NoMatch))
    else
      SelectionIsTheFirstMatch(engine, msg.rawBody);
      Parse(engine, msg, sel.regexp.value)
  }

  /** The rule `SyncCommon.MatchesAnyRegexp` selects is the one at the first matching index. */
  lemma SelectionIsTheFirstMatch(engine: Engine<Pattern>, body: string)
    requires SyncCommon.MatchesAnyRegexp(engine, Rules(), body).found
    ensures forall i :: 0 <= i < |Rules()| && Matches(engine, Rules()[i], body)
                        && (forall j :: 0 <= j < i ==> !Matches(engine, Rules()[j], body)) ==>
              Rules()[i] == SyncCommon.MatchesAnyRegexp(engine, Rules(), body).regexp.value
  {
    var rules := Rules();
    var sel := SyncCommon.MatchesAnyRegexp(engine, rules, body);
    var k :| 0 <= k < |rules| && rules[k] == sel.regexp.value && Matches(engine, rules[k], body)
             && forall j :: 0 <= j < k ==> !Matches(engine, rules[j], body);
    forall i | 0 <= i < |rules| && Matches(engine, rules[i], body) && (forall j :: 0 <= j < i ==> !Matches(engine, rules[j], body))
      ensures rules[i] == sel.regexp.value
    {
    }
  }

  /** Every transaction this generation produces is an Expense carrying the
      sequence number and envelope date of its message, in COP. */
  lemma ParsedTransactionsAreExpenses(engine: Engine<Pattern>, msg: Message)
    requires ExtractTransactionInfoFromMessage(engine, msg).Done?
    requires ExtractTransactionInfoFromMessage(engine, msg).value.Ok?
    ensures var t := ExtractTransactionInfoFromMessage(engine, msg).value.value;
            && t.kind == SyncTypes.Expense && t.value.code == Currency.COP && t.value.rate.Some?
            && msg.message.Some? && msg.message.value.envelope.Some?
            && t.msgId == msg.message.value.seqNum && t.date == msg.message.value.envelope.value.date
  {
  }
}

/** The withdrawal notification of the older parser's fixture. */
module BancolombiaLegacyFixture {
  import opened Wrappers
  import GoInts
  import opened RegexpUtil
  import SyncCommon
  import SyncTypes
  import BancolombiaCurrency
  import opened BancolombiaLegacy

  const WithdrawalBody: string := "Bancolombia le informa Retiro por $70.000,00 en CALLE100-2. Hora 16:44 01/09/2022 T.Deb *5021."
  const WithdrawalGroups: seq<string> := [WithdrawalBody, "Retiro", "70.000,00", "CALLE100-2", "5021"]

  lemma WithdrawalFields(engine: Engine<Pattern>)
    requires engine(Rules()[2], WithdrawalBody) == Some(WithdrawalGroups)
    ensures var f := ExtractFields(engine, WithdrawalBody, Rules()[2]);
            && "type" in f && "value" in f && "place" in f && "account" in f
            && f["type"] == "Retiro" && f["value"] == "70.000,00" && f["place"] == "CALLE100-2" && f["account"] == "5021"
  {
    var f := ExtractFields(engine, WithdrawalBody, Rules()[2]);
    FourNamedGroups(engine, WithdrawalBody, Match(Rules()[2], ()), "type", "value", "place", "account");
  }

  lemma WithdrawalNotification(engine: Engine<Pattern>, seqNum: GoInts.Uint32, from: seq<string>, date: int)
    requires !Matches(engine, Rules()[0], WithdrawalBody) && !Matches(engine, Rules()[1], WithdrawalBody)
    requires engine(Rules()[2], WithdrawalBody) == Some(WithdrawalGroups)
    ensures ExtractTransactionInfoFromMessage(engine, Message(Some(ImapMessage(seqNum, Some(Envelope(from, date)))), WithdrawalBody))
            == Done(Ok(SyncTypes.TransactionInfo(seqNum, SyncTypes.Expense, "Retiro", "CALLE100-2",
                                                 SyncTypes.Currency("COP", Some(7000000)), "5021", date)))
  {
    var msg := Message(Some(ImapMessage(seqNum, Some(Envelope(from, date)))), WithdrawalBody);
    var r := ExtractTransactionInfoFromMessage(engine, msg);
    assert Matches(engine, Rules()[2], msg.rawBody);
    assert r == Parse(engine, msg, Rules()[2]);
    WithdrawalFields(engine);
    var f := SyncCommon.ExtractFieldsStringWithRegexp(engine, WithdrawalBody, Rules()[2]);
    assert f == ExtractFields(engine, WithdrawalBody, Rules()[2]);
    assert f["value"] == "70.000,00";
    BancolombiaCurrency.ExampleWithdrawal();
  }
}
