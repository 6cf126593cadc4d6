/** Model of internal/sync/mail.go, the older generation of the inbox reader
    and archiver.  Each bank's messages are fetched with that bank's filter;
    the mail client's answers are inputs indexed by bank position, and its
    requests are returned. */
module SyncMail {
  import opened Wrappers
  import SyncTypes
  import GoInts

  const Mailbox: string := "INBOX"
  const EmptyMailboxName: string := "archive mailbox name cannot be nil-value"
  const MailboxNotFound: string := "archive mailbox not found "

  /** A message tagged with its bank's position in the bank list. */
  datatype BankMessage<M> = BankMessage(message: M, bank: nat)

  /** A `GetMessages` request: mailbox, "since" instant and the bank whose filter is passed. */
  datatype GetMessages = GetMessages(mailbox: string, since: int, bank: nat)

  /** Messages tagged with bank `b`, in order. */
  function Tag<M>(ms: seq<M>, b: nat): (r: seq<BankMessage<M>>)
    ensures |r| == |ms| && forall j :: 0 <= j < |ms| ==> r[j] == BankMessage(ms[j], b)
  {
    seq(|ms|, j requires 0 <= j < |ms| => BankMessage(ms[j], b))
  }

  /** The loop of `GetEmailFromInbox` over the first `n` banks: the messages
      gathered so far, or the error of the first bank whose fetch failed. */
  function Gather<M>(answers: nat -> Result<seq<M>>, n: nat): Result<seq<BankMessage<M>>>
    decreases n
  {
    if n == 0 then Ok([])
    else
      match Gather(answers, n - 1)
      case Err(e) => Err(e)
      case Ok(prev) =>
        match answers(n - 1)
        case Err(e) => Err(e)
        case Ok(ms) => Ok(prev + Tag(ms, n - 1))
  }

  /** The messages of bank `b`, in the order they appear. */
  function OfBank<M>(tagged: seq<BankMessage<M>>, b: nat): seq<M>
    decreases |tagged|
  {
    if |tagged| == 0 then []
    else
      var n := |tagged| - 1;
      OfBank(tagged[..n], b) + (if tagged[n].bank == b then [tagged[n].message] else [])
  }

  lemma {:induction false} OfBankAppend<M>(a: seq<BankMessage<M>>, c: seq<BankMessage<M>>, b: nat)
    ensures OfBank(a + c, b) == OfBank(a, b) + OfBank(c, b)
    decreases |c|
  {
    if |c| == 0 {
      assert a + c == a;
    } else {
      var n := |c| - 1;
      assert (a + c)[..|a| + n] == a + c[..n];
      assert (a + c)[|a| + n] == c[n];
      OfBankAppend(a, c[..n], b);
    }
  }

  lemma {:induction false} OfBankTag<M>(ms: seq<M>, t: nat, b: nat)
    ensures OfBank(Tag(ms, t), b) == if t == b then ms else []
    decreases |ms|
  {
    if |ms| > 0 {
      var n := |ms| - 1;
      assert Tag(ms, t)[..n] == Tag(ms[..n], t);
      OfBankTag(ms[..n], t, b);
      if t == b { assert ms[..n] + [ms[n]] == ms; }
    }
  }

  /** Concatenation in bank order: when every fetch succeeds, the tags never
      decrease, no tag is out of range, and the messages tagged `b` are
      exactly bank `b`'s answer, in its order. */
  lemma {:induction false} GatherIsConcatenation<M>(answers: nat -> Result<seq<M>>, n: nat)
    requires forall i :: 0 <= i < n ==> answers(i).Ok?
    ensures Gather(answers, n).Ok?
    ensures var ms := Gather(answers, n).value;
            && (forall j, k :: 0 <= j < k < |ms| ==> ms[j].bank <= ms[k].bank)
            && (forall j :: 0 <= j < |ms| ==> ms[j].bank < n)
            && (forall b: nat :: b < n ==> OfBank(ms, b) == answers(b).value)
    decreases n
  {
    if n > 0 {
      var k := n - 1;
      GatherIsConcatenation(answers, k);
      var prev := Gather(answers, k).value;
      var ms := answers(k).value;
      GatherStep(answers, n);
      TaggedOrder(prev, ms, k);
      forall b: nat | b < n ensures OfBank(prev + Tag(ms, k), b) == answers(b).value {
        OfBankAppend(prev, Tag(ms, k), b);
        OfBankTag(ms, k, b);
        if b == k {
          OfBankEmpty(prev, b);
        }
      }
    }
  }

  /** One more successful fetch appends that bank's tagged messages. */
  lemma GatherStep<M>(answers: nat -> Result<seq<M>>, n: nat)
    requires n > 0 && Gather(answers, n - 1).Ok? && answers(n - 1).Ok?
    ensures Gather(answers, n) == Ok(Gather(answers, n - 1).value + Tag(answers(n - 1).value, n - 1))
  {
  }

  /** Appending messages tagged `k` to messages tagged below `k`, in order,
      keeps the tags in order and below `k + 1`. */
  lemma TaggedOrder<M>(prev: seq<BankMessage<M>>, ms: seq<M>, k: nat)
    requires forall j, i :: 0 <= j < i < |prev| ==> prev[j].bank <= prev[i].bank
    requires forall j :: 0 <= j < |prev| ==> prev[j].bank < k
    ensures var all := prev + Tag(ms, k);
            && (forall j, i :: 0 <= j < i < |all| ==> all[j].bank <= all[i].bank)
            && (forall j :: 0 <= j < |all| ==> all[j].bank < k + 1)
  {
  }

  lemma {:induction false} OfBankEmpty<M>(tagged: seq<BankMessage<M>>, b: nat)
    requires forall j :: 0 <= j < |tagged| ==> tagged[j].bank != b
    ensures OfBank(tagged, b) == []
    decreases |tagged|
  {
    if |tagged| > 0 { OfBankEmpty(tagged[..|tagged| - 1], b); }
  }

  /** The first bank, in list order, whose fetch fails. */
  predicate FirstFailure<M>(answers: nat -> Result<seq<M>>, n: nat, k: nat)
  {
    k < n && answers(k).Err? && forall i :: 0 <= i < k ==> answers(i).Ok?
  }

  /** Any failing fetch aborts with the error of the first one. */
  lemma {:induction false} GatherFailsAtFirst<M>(answers: nat -> Result<seq<M>>, n: nat, k: nat)
    requires FirstFailure(answers, n, k)
    ensures Gather(answers, n) == Err(answers(k).error)
    decreases n
  {
    if n - 1 == k {
      GatherIsConcatenation(answers, k);
    } else {
      GatherFailsAtFirst(answers, n - 1, k);
    }
  }

  /** The requests of the loop over the first `n` banks: one per bank, up to
      and including the first failing one. */
  function Requests<M>(answers: nat -> Result<seq<M>>, since: int, n: nat): (rs: seq<GetMessages>)
    ensures |rs| <= n
    ensures Gather(answers, n).Ok? ==> |rs| == n
    ensures forall j :: 0 <= j < |rs| ==> rs[j] == GetMessages(Mailbox, since, j)
    decreases n
  {
    if n == 0 then []
    else
      var prev := Requests(answers, since, n - 1);
      if Gather(answers, n - 1).Err? then prev
      else prev + [GetMessages(Mailbox, since, n - 1)]
  }

  /** The banks asked are those up to and including the first failing one. */
  lemma {:induction false} RequestsUpToFirstFailure<M>(answers: nat -> Result<seq<M>>, since: int, n: nat, k: nat)
    requires FirstFailure(answers, n, k)
    ensures |Requests(answers, since, n)| == k + 1
    decreases n
  {
    if n - 1 == k {
      GatherIsConcatenation(answers, k);
    } else {
      RequestsUpToFirstFailure(answers, since, n - 1, k);
      GatherFailsAtFirst(answers, n - 1, k);
    }
  }

  /** `GetEmailFromInbox`: the messages of every bank concatenated in bank
      order, each tagged with its bank, or the first fetch error. */
  function GetEmailFromInbox<M>(since: int, banks: nat, answers: nat -> Result<seq<M>>): (r: (Result<seq<BankMessage<M>>>, seq<GetMessages>))
    ensures r.0.Ok? <==> forall i :: 0 <= i < banks ==> answers(i).Ok?
    ensures r.0.Ok? ==> var ms := r.0.value;
              && (forall j, k :: 0 <= j < k < |ms| ==> ms[j].bank <= ms[k].bank)
              && (forall j :: 0 <= j < |ms| ==> ms[j].bank < banks)
              && (forall b: nat :: b < banks ==> OfBank(ms, b) == answers(b).value)
    ensures r.0.Ok? ==> |r.1| == banks
    ensures r.0.Err? ==> exists k: nat :: FirstFailure(answers, banks, k) && r.0.error == answers(k).error && |r.1| == k + 1
    ensures forall j :: 0 <= j < |r.1| ==> r.1[j] == GetMessages(Mailbox, since, j)
  {
    if forall i :: 0 <= i < banks ==> answers(i).Ok? then
      GatherIsConcatenation(answers, banks);
      (Gather(answers, banks), Requests(answers, since, banks))
    else
      var k := FirstFailing(answers, banks);
      GatherFailsAtFirst(answers, banks, k);
      RequestsUpToFirstFailure(answers, since, banks, k);
      (Gather(answers, banks), Requests(answers, since, banks))
  }

  /** The position of the first failing fetch, when there is one. */
  function FirstFailing<M>(answers: nat -> Result<seq<M>>, n: nat): (k: nat)
    requires exists i :: 0 <= i < n && answers(i).Err?
    ensures FirstFailure(answers, n, k)
    decreases n
  {
    if exists i :: 0 <= i < n - 1 && answers(i).Err? then FirstFailing(answers, n - 1)
    else n - 1
  }

  /** `assertMailboxExists` of this generation. */
  function AssertMailboxExists(mailboxes: seq<string>, archive: string): (r: Exec<()>)
    ensures r.Done? <==> archive in mailboxes
    ensures r.Panicked? ==> r.reason == MailboxNotFound + archive
  {
    if archive in mailboxes then Done(()) else Panicked(MailboxNotFound + archive)
  }

  /** A `Move` request: message ids and target mailbox. */
  datatype Move = Move(ids: seq<GoInts.Uint32>, mailbox: string)

  /** `ArchiveEmailsFromSuccessfulTransactions`: after the same mailbox checks
      as the newer generation, the ids of all given transactions are moved,
      in order and even when there are none; a `Move` failure panics. */
  function ArchiveEmailsFromSuccessfulTransactions(archive: string, mailboxes: Result<seq<string>>,
                                                   txs: seq<SyncTypes.TransactionInfo>, moveError: Option<string>): (r: Exec<Move>)
    ensures r.Done? <==> archive != "" && mailboxes.Ok? && archive in mailboxes.value && moveError.None?
    ensures archive == "" ==> r == Panicked(EmptyMailboxName)
    ensures archive != "" && mailboxes.Err? ==> r == Panicked(mailboxes.error)
    ensures archive != "" && mailboxes.Ok? && archive in mailboxes.value && moveError.Some? ==> r == Panicked(moveError.value)
    ensures r.Done? ==> r.value.mailbox == archive && |r.value.ids| == |txs|
                        && forall i :: 0 <= i < |txs| ==> r.value.ids[i] == txs[i].msgId
  {
    if archive == "" then Panicked(EmptyMailboxName)
    else
      match mailboxes
      case Err(e) => Panicked(e)
      case Ok(boxes) =>
        match AssertMailboxExists(boxes, archive)
        case Panicked(why) => Panicked(why)
        case Done(_) =>
          match moveError
          case Some(e) => Panicked(e)
          case None => Done(Move(seq(|txs|, i requires 0 <= i < |txs| => txs[i].msgId), archive))
  }
}
