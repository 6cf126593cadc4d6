/** How a transaction parsed by internal/bank/bancolombia/bancolombia.go
    reaches `registerSingleTrxIntoAccounting` of internal/sync/accounting.go,
    which reads the user's candidate addresses from the transaction's origin
    message.  The parser as written never sets that message, so registration
    dereferences nil; with the origin recorded it resolves the recipients. */
module OriginMessage {
  import opened Wrappers
  import opened RegexpUtil
  import BankTypes
  import Bancolombia
  import Accounting

  /** As written: every transaction the parser produces makes registration
      panic, whatever the environment and dry-run setting. */
  lemma AsWrittenRegistrationPanics(engine: Engine<Bancolombia.Pattern>, msg: BankTypes.Message, env: Accounting.Env, dryRun: bool)
    requires Bancolombia.ExtractTransactionInfoFromMessage(engine, msg).Ok?
    ensures Accounting.RegisterSingleTrxIntoAccounting(env, dryRun, Bancolombia.ExtractTransactionInfoFromMessage(engine, msg).value).Panicked?
  {
    Bancolombia.ParsedMessagesPassTheFilter(engine, msg);
  }

  /** Corrected: registration of a transaction carrying its origin never
      panics, and it looks the user up among the message's recipients: when
      none resolves, that error is returned and no call is made. */
  lemma CorrectedRegistrationResolvesRecipients(engine: Engine<Bancolombia.Pattern>, msg: BankTypes.Message, env: Accounting.Env, dryRun: bool)
    requires Bancolombia.ExtractWithOrigin(engine, msg).Ok?
    ensures var r := Accounting.RegisterSingleTrxIntoAccounting(env, dryRun, Bancolombia.ExtractWithOrigin(engine, msg).value);
            && r.Done?
            && (Accounting.GetUserConfigFromCandidates(env, msg.to).0.Err? ==>
                  r.value == Accounting.Registration(Some(Accounting.GetUserConfigFromCandidates(env, msg.to).0.error), []))
  {
  }
}
