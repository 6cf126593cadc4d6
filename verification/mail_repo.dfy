/** Model of the sequential decisions of internal/repository/mailrepo/repository.go:
    `divideSlice`, the worker arithmetic of `GetMessagesFromMailbox`, the empty
    case of `MoveMessagesToMailbox`, and the `MessageErrs` error list.  The IMAP
    client itself is not modelled; its calls appear as a recorded trace. */
module MailRepo {
  import opened Wrappers
  import opened GoInts
  import Text
  import Slices

  /** `divideSlice`: unlike `Split`, a non-positive `n` is an error even for an
      empty input. */
  method DivideSlice<T>(n: int, v: seq<T>) returns (r: Result<seq<seq<T>>>)
    ensures n <= 0 ==> r.Err?
    ensures n > 0 ==> r == Ok(Slices.Buckets(v, n))
  {
    if n <= 0 {
      return Err("n must be greater than zero");
    }
    var div := Slices.Distribute(n, v);
    var bs := Slices.InKeyOrder(div, Slices.Min(n, |v|));
    assert bs == Slices.Buckets(v, n);
    return Ok(bs);
  }

  /** How `GetMessagesFromMailbox` hands the found ids to its workers: no ids
      means an already closed, empty stream (no workers); otherwise one worker
      per bucket. */
  datatype WorkerPlan = ClosedEmptyStream | Workers(buckets: seq<seq<Uint32>>)

  /** `min(NumCPU, len(ids))` workers, worker `i` fetching `buckets[i]`.
      `numCPU` is what `runtime.NumCPU()` reports, which is at least one. */
  method PlanWorkers(numCPU: nat, ids: seq<Uint32>) returns (r: Result<WorkerPlan>)
    requires numCPU >= 1
    ensures |ids| == 0 <==> r == Ok(ClosedEmptyStream)
    ensures |ids| > 0 ==> r.Ok? && r.value.Workers?
    ensures r.Ok? && r.value.Workers? ==>
              && |r.value.buckets| == Slices.Min(numCPU, |ids|)
              && (forall i :: 0 <= i < |r.value.buckets| ==> |r.value.buckets[i]| > 0)
              && multiset(Slices.Flatten(r.value.buckets)) == multiset(ids)
  {
    var routines := Slices.Min(numCPU, |ids|);
    if routines == 0 {
      return Ok(ClosedEmptyStream);
    }
    // `routines` is positive here, so the error return of `divideSlice` is never taken.
    var buckets := DivideSlice(routines, ids);
    Slices.BucketShape(ids, routines);
    Slices.BucketsArePermutation(ids, routines);
    return Ok(Workers(buckets.value));
  }

  /** The client calls `MoveMessagesToMailbox` makes. */
  datatype ClientCall = GetClient | UidMove(ids: seq<Uint32>, mailbox: string)

  /** `MoveMessagesToMailbox`: the calls made and the error returned, given the
      result the server gives to the move (None for success). */
  function MoveMessagesToMailbox(toMailbox: string, ids: seq<Uint32>, moveError: Option<string>): (r: (seq<ClientCall>, Option<string>))
    ensures |ids| == 0 ==> r == ([], None)
    ensures |ids| > 0 ==> r.0 == [GetClient, UidMove(ids, toMailbox)] && r.1 == moveError
  {
    if |ids| == 0 then ([], None)
    else ([GetClient, UidMove(ids, toMailbox)], moveError)
  }

  /** `MessageErr`: an error attached to the message it happened on. */
  datatype MessageErr = MessageErr(err: string, seqNum: Uint32)

  /** `MessageErr.Error`: "message <seq> has error <err>", the sequence number
      written in decimal. */
  function MessageErrText(e: MessageErr): (s: string)
    ensures exists k :: Text.AllDigits(k) && |k| >= 1 && (|k| == 1 || k[0] != '0')
                        && Text.DigitsValue(k) == e.seqNum as nat
                        && s == "message " + k + " has error " + e.err
  {
    Text.DigitsValueOfNatToString(e.seqNum as nat);
    "message " + Text.NatToString(e.seqNum as nat) + " has error " + e.err
  }

  /** `MessageErrs`: all errors of one fetch. */
  datatype MessageErrs = MessageErrs(errs: seq<MessageErr>)

  /** `MessageErrs.Error`: "<count> messages got error". */
  function MessageErrsText(e: MessageErrs): (s: string)
    ensures exists k :: Text.AllDigits(k) && |k| >= 1 && (|k| == 1 || k[0] != '0')
                        && Text.DigitsValue(k) == |e.errs| && s == k + " messages got error"
  {
    Text.DigitsValueOfNatToString(|e.errs|);
    Text.NatToString(|e.errs|) + " messages got error"
  }

  /** `MessageErrs.Unwrap`: one error per entry, in the same order, each still
      naming its message. */
  function Unwrap(e: MessageErrs): (r: seq<MessageErr>)
    ensures |r| == |e.errs| && forall i :: 0 <= i < |r| ==> r[i].seqNum == e.errs[i].seqNum && r[i].err == e.errs[i].err
  {
    e.errs
  }
}
