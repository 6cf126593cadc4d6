/** Model of internal/bank/bancolombia/bancolombia.go: recognising Bancolombia
    notifications and turning one into a `TrxInfo`.  The ten rule patterns are
    kept as text; whether a pattern matches a body is decided by the
    uninterpreted `engine`. */
module Bancolombia {
  import opened Wrappers
  import opened RegexpUtil
  import Validation
  import BankTypes
  import Currency
  import BancolombiaCurrency

  /** `Bancolombia.String`. */
  const Name: string := "Bancolombia"

  const NotificationsSender: string := "alertasynotificaciones@notificacionesbancolombia.com"
  const BankSender: string := "alertasynotificaciones@bancolombia.com.co"

  /** Prefix added by the `errs.Class("bancolombia")` wrapper of every error. */
  const ErrPrefix: string := "bancolombia: "
  const NoMatch: string := "message did not match any regexp"
  const MissingFields: string := "message does not contain all required fields"

  /** `ComesFrom`: some sender is exactly one of the two bank addresses. */
  function ComesFrom(from: seq<string>): (b: bool)
    ensures b <==> exists i :: 0 <= i < |from| && (from[i] == NotificationsSender || from[i] == BankSender)
    decreases |from|
  {
    if |from| == 0 then false
    else if from[0] == NotificationsSender || from[0] == BankSender then true
    else
      var rest := ComesFrom(from[1..]);
      assert rest ==> exists i :: 0 <= i < |from[1..]| && (from[1..][i] == NotificationsSender || from[1..][i] == BankSender);
      rest
  }

  /** Group names of the rules, as `SubexpNames()` reports them. */
  const TypeValuePlaceAccount: seq<string> := ["", "type", "value", "place", "account"]
  const TypeValueAccountPlace: seq<string> := ["", "type", "value", "account", "place"]
  const TypePlaceValueAccount: seq<string> := ["", "type", "place", "value", "account"]

  /** The rule patterns, named by their place in `regexMatching`.  The engine
      is keyed by these names; `Source` gives each one's text in Go regexp
      syntax. */
  datatype Pattern = Pattern1 | Pattern2 | Pattern3 | Pattern4 | Pattern5 | Pattern6 | Pattern7 | Pattern8 | Pattern9 | Pattern10

  function Source(p: Pattern): string
  {
    match p
    case Pattern1 => "Bancolombia le informa (?P<type>\\w+) por \\$(?P<value>[0-9,\\.]+) a (?P<place>.+) desde (?:cta|T\\.CRED) \\*(?P<account>\\d{4})\\."
    case Pattern2 => "Bancolombia le informa (?P<type>\\w+) por \\$(?P<value>[0-9,\\.]+) en (?P<place>[^\\.]+)\\..+T\\.Cred \\*(?P<account>\\d{4})\\."
    case Pattern3 => "Bancolombia le informa (?P<type>\\w+) por \\$(?P<value>[0-9,\\.]+) en (?P<place>.+)\\..+T\\.(?:Cred|Deb) \\*(?P<account>\\d{4})\\."
    case Pattern4 => "Bancolombia le informa (?P<type>\\w+) por \\$(?P<value>[0-9,\\.]+) desde cta \\*(?P<account>\\d{4}).+cta (?P<place>\\d{9,16})\\."
    case Pattern5 => "Realizaste una (?P<type>\\w+) con QR por \\$(?P<value>[0-9,\\.]+), desde cta \\*(?P<account>\\d{4}) a cta (?P<place>\\d{9,16})\\."
    case Pattern6 => "Bancolombia le informa (?P<type>\\w+) de pago de (?P<place>[A-Z\\s]+) por \\$(?P<value>[0-9,\\.]+) en su cuenta (?P<account>[A-Z\\s]+)\\s.+\\."
    case Pattern7 => "Bancolombia te informa (?P<type>\\w+) transferencia de (?P<place>[A-Z\\s]+) por \\$(?P<value>[0-9,\\.]+) en la cuenta \\*(?P<account>[0-9]+)\\."
    case Pattern8 => "Bancolombia le informa un (?P<type>\\w+) (?P<place>[\\w\\s]+) por \\$(?P<value>[0-9,\\.]+) en su Cuenta (?P<account>\\w+)\\."
    case Pattern9 => "Bancolombia le informa un (?P<type>[\\w\\s]+) de (?P<place>[\\w\\s\\.]+) por \\$(?P<value>[0-9,\\.]+) en su Cuenta (?P<account>\\w+)\\."
    case Pattern10 => "Bancolombia te informa (?P<type>[\\w\\s]+) por \\$(?P<value>[0-9,\\.]+) a (?P<place>[\\w\\s\\.]+) desde producto \\*(?P<account>\\w+)\\."
  }

  /** `regexMatching`: the rules in the order they are tried, each with the kind it assigns. */
  function Rules(): (rules: seq<Match<Pattern, BankTypes.TrxType>>)
    ensures |rules| == 10
    ensures forall i :: 0 <= i < |rules| ==> (rules[i].value == BankTypes.Income <==> 5 <= i <= 8)
    ensures forall i :: 0 <= i < |rules| ==> rules[i].value == BankTypes.Income || rules[i].value == BankTypes.Expense
    ensures forall i :: 0 <= i < |rules| ==>
              forall k :: 0 <= k < |Validation.RequiredFields| ==> Validation.RequiredFields[k] in rules[i].regexp.names
  {
    [ Match(Regexp(Pattern1, TypeValuePlaceAccount), BankTypes.Expense),
      Match(Regexp(Pattern2, TypeValuePlaceAccount), BankTypes.Expense),
      Match(Regexp(Pattern3, TypeValuePlaceAccount), BankTypes.Expense),
      Match(Regexp(Pattern4, TypeValueAccountPlace), BankTypes.Expense),
      Match(Regexp(Pattern5, TypeValueAccountPlace), BankTypes.Expense),
      Match(Regexp(Pattern6, TypePlaceValueAccount), BankTypes.Income),
      Match(Regexp(Pattern7, TypePlaceValueAccount), BankTypes.Income),
      Match(Regexp(Pattern8, TypePlaceValueAccount), BankTypes.Income),
      Match(Regexp(Pattern9, TypePlaceValueAccount), BankTypes.Income),
      Match(Regexp(Pattern10, TypeValuePlaceAccount), BankTypes.Expense) ]
  }

  /** `FilterMessage`: the body matches some rule; the sender is not consulted. */
  function FilterMessage(engine: Engine<Pattern>, msg: BankTypes.Message): (keep: bool)
    ensures keep <==> exists i :: 0 <= i < |Rules()| && Matches(engine, Rules()[i].regexp, msg.body)
  {
    MatchesAnyRegexp(engine, Rules(), msg.body).Some?
  }

  /** The named groups rule `i` captures from `body`. */
  function Fields(engine: Engine<Pattern>, body: string, i: nat): map<string, string>
    requires i < |Rules()|
  {
    ExtractFieldsWithMatch(engine, body, Rules()[i])
  }

  /** Rule `i`'s reading of the message: the four required groups must all
      be captured and the amount must parse; the transaction is then dated
      and identified by the message, tagged with the bank and given the
      rule's kind. */
  function ParseWith(engine: Engine<Pattern>, msg: BankTypes.Message, i: nat): (r: Result<BankTypes.TrxInfo>)
    requires i < |Rules()|
    ensures !Validation.ContainsAllRequiredFields(Fields(engine, msg.body, i)) ==> r == Err(ErrPrefix + MissingFields)
    ensures r.Ok? ==> var f := Fields(engine, msg.body, i);
                      && Validation.ContainsAllRequiredFields(f)
                      && BancolombiaCurrency.GetValueFromText(f["value"]) == Ok(r.value.value)
                      && r.value == BankTypes.TrxInfo(msg.date, Name, f["type"], f["place"], f["account"],
                                                      r.value.value, msg.id, None, Rules()[i].value)
    ensures Validation.ContainsAllRequiredFields(Fields(engine, msg.body, i)) ==>
              (r.Ok? <==> BancolombiaCurrency.GetValueFromText(Fields(engine, msg.body, i)["value"]).Ok?)
  {
    var f := Fields(engine, msg.body, i);
    if !Validation.ContainsAllRequiredFields(f) then Err(ErrPrefix + MissingFields)
    else
      match BancolombiaCurrency.GetValueFromText(f["value"])
      case Err(e) => Err(ErrPrefix + e)
      case Ok(v) =>
        Ok(BankTypes.TrxInfo(msg.date, Name, f["type"], f["place"], f["account"], v, msg.id, None, Rules()[i].value))
  }

  /** `ExtractTransactionInfoFromMessage`: the first matching rule reads the message. */
  function ExtractTransactionInfoFromMessage(engine: Engine<Pattern>, msg: BankTypes.Message): (r: Result<BankTypes.TrxInfo>)
    ensures (forall i :: 0 <= i < |Rules()| ==> !Matches(engine, Rules()[i].regexp, msg.body)) ==>
              r == Err(ErrPrefix + NoMatch)
    ensures forall i :: IsFirstMatch(engine, Rules(), msg.body, i) ==> r == ParseWith(engine, msg, i)
  {
    match FirstMatchIndex(engine, Rules(), msg.body)
    case None => Err(ErrPrefix + NoMatch)
    case Some(i) =>
      FirstMatchIsUnique(engine, Rules(), msg.body, i);
      ParseWith(engine, msg, i)
  }

  /** The extractor as evidently intended: the same transaction, with the
      message it came from recorded as its origin, which registration reads
      the recipients from. */
  function ExtractWithOrigin(engine: Engine<Pattern>, msg: BankTypes.Message): (r: Result<BankTypes.TrxInfo>)
    ensures r.Ok? <==> ExtractTransactionInfoFromMessage(engine, msg).Ok?
    ensures r.Err? ==> r == ExtractTransactionInfoFromMessage(engine, msg)
    ensures r.Ok? ==> r.value.originMessage == Some(msg)
                      && r.value == ExtractTransactionInfoFromMessage(engine, msg).value.(originMessage := Some(msg))
  {
    match ExtractTransactionInfoFromMessage(engine, msg)
    case Err(e) => Err(e)
    case Ok(t) => Ok(t.(originMessage := Some(msg)))
  }

  /** Only one index can be the first match. */
  lemma FirstMatchIsUnique<P, V>(engine: Engine<P>, rules: seq<Match<P, V>>, s: string, i: nat)
    requires IsFirstMatch(engine, rules, s, i)
    ensures forall j :: IsFirstMatch(engine, rules, s, j) ==> j == i
  {
  }

  /** Every parsed transaction comes from a message the filter keeps, its kind is
      Income exactly for rules 6 to 9, and its fields are copied from the message. */
  lemma ParsedMessagesPassTheFilter(engine: Engine<Pattern>, msg: BankTypes.Message)
    requires ExtractTransactionInfoFromMessage(engine, msg).Ok?
    ensures FilterMessage(engine, msg)
    ensures var t := ExtractTransactionInfoFromMessage(engine, msg).value;
            && t.date == msg.date && t.correlationId == msg.id && t.bank == Name && t.originMessage.None?
            && t.value.code == Currency.COP
            && exists i :: IsFirstMatch(engine, Rules(), msg.body, i) && (t.kind == BankTypes.Income <==> 5 <= i <= 8)
  {
    var i :| IsFirstMatch(engine, Rules(), msg.body, i);
  }
}

/** The card-purchase notification of the bank's own fixture, parsed by the
    third rule once the engine reports that the first two do not match. */
module BancolombiaFixture {
  import opened Wrappers
  import opened RegexpUtil
  import BankTypes
  import Currency
  import BancolombiaCurrency
  import opened Bancolombia

  const PurchaseBody: string := "Bancolombia le informa Compra por $3.150,00 en EXITO EXPRESS AVE 19 19:02. 20/09/2022 T.Deb *5021."
  const PurchaseGroups: seq<string> := [PurchaseBody, "Compra", "3.150,00", "EXITO EXPRESS AVE 19 19:02", "5021"]

  lemma PurchaseFields(engine: Engine<Pattern>)
    requires engine(Rules()[2].regexp, PurchaseBody) == Some(PurchaseGroups)
    ensures var f := Fields(engine, PurchaseBody, 2);
            && "type" in f && "value" in f && "place" in f && "account" in f
            && f["type"] == "Compra" && f["value"] == "3.150,00"
            && f["place"] == "EXITO EXPRESS AVE 19 19:02" && f["account"] == "5021"
  {
    var names := TypeValuePlaceAccount;
    PurchaseCollect(engine);
    var f := Collect(names, PurchaseGroups, 5);
    assert "type" in f && f["type"] == "Compra" by {
      LayoutNames(); PurchaseGroupsText(); CollectLastCapture(names, PurchaseGroups, 1);
    }
    assert "value" in f && f["value"] == "3.150,00" by {
      LayoutNames(); PurchaseGroupsText(); CollectLastCapture(names, PurchaseGroups, 2);
    }
    assert "place" in f && f["place"] == "EXITO EXPRESS AVE 19 19:02" by {
      LayoutNames(); PurchaseGroupsText(); CollectLastCapture(names, PurchaseGroups, 3);
    }
    assert "account" in f && f["account"] == "5021" by {
      LayoutNames(); PurchaseGroupsText(); CollectLastCapture(names, PurchaseGroups, 4);
    }
  }

  /** The third rule's fields are collected from the purchase's five groups. */
  lemma PurchaseCollect(engine: Engine<Pattern>)
    requires engine(Rules()[2].regexp, PurchaseBody) == Some(PurchaseGroups)
    ensures Fields(engine, PurchaseBody, 2) == Collect(TypeValuePlaceAccount, PurchaseGroups, 5)
  {
    assert Rules()[2].regexp == Regexp(Pattern3, TypeValuePlaceAccount);
  }

  /** The group names of the type-value-place-account layout, and that none repeats. */
  lemma LayoutNames()
    ensures var names := TypeValuePlaceAccount;
            && |names| == 5 && names[0] == ""
            && names[1] == "type" && names[2] == "value" && names[3] == "place" && names[4] == "account"
            && forall i, j :: 1 <= i < j < 5 ==> names[i] != names[j]
  {
  }

  lemma PurchaseGroupsText()
    ensures |PurchaseGroups| == 5
    ensures PurchaseGroups[1] == "Compra" && PurchaseGroups[2] == "3.150,00"
    ensures PurchaseGroups[3] == "EXITO EXPRESS AVE 19 19:02" && PurchaseGroups[4] == "5021"
  {
  }

  lemma PurchaseNotification(engine: Engine<Pattern>, msg: BankTypes.Message)
    requires msg.body == PurchaseBody
    requires !Matches(engine, Rules()[0].regexp, PurchaseBody) && !Matches(engine, Rules()[1].regexp, PurchaseBody)
    requires engine(Rules()[2].regexp, PurchaseBody) == Some(PurchaseGroups)
    ensures ExtractTransactionInfoFromMessage(engine, msg)
            == Ok(BankTypes.TrxInfo(msg.date, "Bancolombia", "Compra", "EXITO EXPRESS AVE 19 19:02", "5021",
                                    Currency.Amount("COP", 315000), msg.id, None, BankTypes.Expense))
  {
    assert IsFirstMatch(engine, Rules(), msg.body, 2);
    var r := ExtractTransactionInfoFromMessage(engine, msg);
    assert r == ParseWith(engine, msg, 2);
    PurchaseFields(engine);
    BancolombiaCurrency.ExampleDotThousands();
  }
}
