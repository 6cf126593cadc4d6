/** Model of internal/sync/archive.go: after registration, the messages of the
    transactions that went through are moved to the archive mailbox.  The
    mail client is a collaborator: its mailbox list and its answer to `Move`
    are inputs; the `Move` request is returned. */
module SyncArchive {
  import opened Wrappers
  import TypesTransaction
  import GoInts

  const EmptyMailboxName: string := "archive mailbox name cannot be zero-value"
  const MailboxNotFound: string := "archive mailbox not found "

  /** `assertMailboxExists`: panics unless the archive mailbox is listed. */
  function AssertMailboxExists(mailboxes: seq<string>, archive: string): (r: Exec<()>)
    ensures r.Done? <==> archive in mailboxes
    ensures r.Panicked? ==> r.reason == MailboxNotFound + archive
  {
    if archive in mailboxes then Done(()) else Panicked(MailboxNotFound + archive)
  }

  /** A `Move` request: target mailbox and message ids. */
  datatype Move = Move(mailbox: string, ids: seq<GoInts.Uint32>)

  /** The ids of the gathered transactions that carry no error, in gathered order. */
  function SuccessfulIds(gathered: seq<Result<TypesTransaction.TransactionInfo>>): (ids: seq<GoInts.Uint32>)
    decreases |gathered|
  {
    if |gathered| == 0 then []
    else
      var n := |gathered| - 1;
      SuccessfulIds(gathered[..n]) + (if gathered[n].Ok? then [gathered[n].value.msgId] else [])
  }

  /** An id is collected exactly when some error-free transaction carries it. */
  lemma {:induction false} SuccessfulIdsSpec(gathered: seq<Result<TypesTransaction.TransactionInfo>>)
    ensures |SuccessfulIds(gathered)| <= |gathered|
    ensures forall id :: id in SuccessfulIds(gathered) <==>
              exists i :: 0 <= i < |gathered| && gathered[i].Ok? && gathered[i].value.msgId == id
    ensures (forall i :: 0 <= i < |gathered| ==> gathered[i].Err?) <==> SuccessfulIds(gathered) == []
    decreases |gathered|
  {
    if |gathered| > 0 {
      var n := |gathered| - 1;
      var prefix := gathered[..n];
      SuccessfulIdsSpec(prefix);
      assert forall i :: 0 <= i < n ==> prefix[i] == gathered[i];
      forall id ensures id in SuccessfulIds(gathered) <==>
                exists i :: 0 <= i < |gathered| && gathered[i].Ok? && gathered[i].value.msgId == id
      {
        if exists i :: 0 <= i < |gathered| && gathered[i].Ok? && gathered[i].value.msgId == id {
          var i :| 0 <= i < |gathered| && gathered[i].Ok? && gathered[i].value.msgId == id;
          if i < n { assert prefix[i].Ok? && prefix[i].value.msgId == id; }
        }
      }
    }
  }

  /** Order: error-free transactions appear in the order they were gathered. */
  lemma {:induction false} SuccessfulIdsOfAllOk(gathered: seq<Result<TypesTransaction.TransactionInfo>>)
    requires forall i :: 0 <= i < |gathered| ==> gathered[i].Ok?
    ensures |SuccessfulIds(gathered)| == |gathered|
    ensures forall i :: 0 <= i < |gathered| ==> SuccessfulIds(gathered)[i] == gathered[i].value.msgId
    decreases |gathered|
  {
    if |gathered| > 0 {
      var n := |gathered| - 1;
      SuccessfulIdsOfAllOk(gathered[..n]);
    }
  }

  /** What the archiving goroutine does: the `Move` requests sent and the
      errors delivered on the result channel (at most one). */
  datatype Archived = Archived(moves: seq<Move>, errors: seq<string>)

  /** `ArchiveTransactions`: an empty mailbox name, a failed mailbox listing
      or an unknown mailbox panics before anything else; then the ids of the
      error-free transactions are moved unless there are none or it is a dry
      run, and a `Move` error is delivered once. */
  function ArchiveTransactions(archive: string, mailboxes: Result<seq<string>>, dryRun: bool,
                               gathered: seq<Result<TypesTransaction.TransactionInfo>>, moveError: Option<string>): (r: Exec<Archived>)
    ensures r.Done? <==> archive != "" && mailboxes.Ok? && archive in mailboxes.value
    ensures archive == "" ==> r == Panicked(EmptyMailboxName)
    ensures archive != "" && mailboxes.Err? ==> r == Panicked(mailboxes.error)
    ensures r.Done? ==> |r.value.errors| <= 1 && |r.value.moves| <= 1
    ensures r.Done? && (dryRun || SuccessfulIds(gathered) == []) ==> r.value == Archived([], [])
    ensures r.Done? && !dryRun && SuccessfulIds(gathered) != [] ==>
              && r.value.moves == [Move(archive, SuccessfulIds(gathered))]
              && (r.value.errors == [] <==> moveError.None?)
              && (moveError.Some? ==> r.value.errors == [moveError.value])
  {
    if archive == "" then Panicked(EmptyMailboxName)
    else
      match mailboxes
      case Err(e) => Panicked(e)
      case Ok(boxes) =>
        match AssertMailboxExists(boxes, archive)
        case Panicked(why) => Panicked(why)
        case Done(_) =>
          var ids := SuccessfulIds(gathered);
          if |ids| == 0 || dryRun then Done(Archived([], []))
          else
            var errors := if moveError.Some? then [moveError.value] else [];
            Done(Archived([Move(archive, ids)], errors))
  }

  /** No `Move` is sent when every gathered result is an error. */
  lemma NothingToArchive(archive: string, mailboxes: Result<seq<string>>, dryRun: bool,
                         gathered: seq<Result<TypesTransaction.TransactionInfo>>, moveError: Option<string>)
    requires forall i :: 0 <= i < |gathered| ==> gathered[i].Err?
    ensures var r := ArchiveTransactions(archive, mailboxes, dryRun, gathered, moveError);
            r.Done? ==> r.value.moves == [] && r.value.errors == []
  {
    SuccessfulIdsSpec(gathered);
  }
}
