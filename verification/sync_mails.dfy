/** Model of internal/sync/mails.go: the older generation's last-processed
    date, which never fails but falls back to thirty days before now, and the
    inbox reader that tags each message with the first bank accepting it.
    Instants are seconds; the mail client and the key-value store are
    collaborators whose answers are inputs. */
module SyncMails {
  import opened Wrappers
  import Items
  import SyncNosql

  const Day: int := 24 * 60 * 60
  const Mailbox: string := "INBOX"
  /** The `ErrMessageBankNotFound` sentinel; its definition is not part of this model. */
  const BankNotFound: string := "ErrMessageBankNotFound"

  /** Thirty days before `now`. */
  function FallbackDate(now: int): (d: int)
    ensures d < now && now - d == 30 * Day
  {
    now - 30 * 24 * 60 * 60
  }

  /** `LastProcessedDate`: the stored date when the client can be created,
      the item read, its field present, a string, and a date; the fallback on
      any failure.  The second component is the store requests made. */
  function LastProcessedDate(now: int, clientCreated: bool, item: Result<Items.Item>, parse: string -> Result<int>): (r: (int, seq<Items.GetItem>))
    ensures !clientCreated ==> r == (FallbackDate(now), [])
    ensures clientCreated ==> r.1 == [Items.ReadDate]
    ensures clientCreated && SyncNosql.Readable(item, parse) ==> r.0 == parse(item.value[Items.Field].s).value
    ensures clientCreated && item.Err? ==> r.0 == FallbackDate(now)
    ensures clientCreated && item.Ok? && Items.Field !in item.value ==> r.0 == FallbackDate(now)
    ensures clientCreated && item.Ok? && Items.Field in item.value && item.value[Items.Field].Other? ==> r.0 == FallbackDate(now)
    ensures (clientCreated && item.Ok? && Items.Field in item.value && item.value[Items.Field].Str?
             && parse(item.value[Items.Field].s).Err?) ==> r.0 == FallbackDate(now)
  {
    if !clientCreated then (FallbackDate(now), [])
    else
      var calls := [Items.ReadDate];
      match item
      case Err(_) => (FallbackDate(now), calls)
      case Ok(res) =>
        if Items.Field !in res then (FallbackDate(now), calls)
        else
          match res[Items.Field]
          case Other(_) => (FallbackDate(now), calls)
          case Str(text) =>
            match parse(text)
            case Err(_) => (FallbackDate(now), calls)
            case Ok(d) => (d, calls)
  }

  /** The two generations agree: this one returns exactly what the newer
      `LastProcessedDate` of internal/sync/nosql.go returns, and its fallback
      wherever that one reports an error. */
  lemma {:induction false} AgreesWithNosql(now: int, item: Result<Items.Item>, parse: string -> Result<int>)
    ensures var newer := SyncNosql.LastProcessedDate(item, parse);
            && (newer.Ok? ==> LastProcessedDate(now, true, item, parse).0 == newer.value)
            && (newer.Err? ==> LastProcessedDate(now, true, item, parse).0 == FallbackDate(now))
  {
    var newer := SyncNosql.LastProcessedDate(item, parse);
    if newer.Ok? {
      assert SyncNosql.Readable(item, parse);
    } else {
      assert !SyncNosql.Readable(item, parse);
    }
  }

  /** A message tagged with the bank (by its position in the bank list). */
  datatype BankMessage<M> = BankMessage(message: M, bank: nat)

  /** Bank `i` is the first, in list order, whose filter accepts `m`. */
  predicate FirstAccepting<M>(filters: seq<M -> bool>, m: M, i: int)
  {
    0 <= i < |filters| && filters[i](m) && forall j :: 0 <= j < i ==> !filters[j](m)
  }

  /** The classifier of `GetMessagesFromInbox`: the first bank accepting the
      message, or `ErrMessageBankNotFound`. */
  function Classify<M>(filters: seq<M -> bool>, m: M): (r: Result<BankMessage<M>>)
    ensures r.Err? <==> forall i :: 0 <= i < |filters| ==> !filters[i](m)
    ensures r.Err? ==> r.error == BankNotFound
    ensures r.Ok? ==> r.value.message == m && FirstAccepting(filters, m, r.value.bank)
    decreases |filters|
  {
    if |filters| == 0 then Err(BankNotFound)
    else if filters[0](m) then Ok(BankMessage(m, 0))
    else
      match Classify(filters[1..], m)
      case Err(e) => Err(e)
      case Ok(bm) =>
        assert filters[1..][bm.bank] == filters[bm.bank + 1];
        assert forall j :: 0 < j <= bm.bank ==> filters[j] == filters[1..][j - 1];
        Ok(BankMessage(m, bm.bank + 1))
  }

  /** A `Messages` request: mailbox and "since" instant. */
  datatype MessagesRequest = MessagesRequest(mailbox: string, since: int)

  /** What `GetMessagesFromInbox` asks for and delivers. */
  datatype Inbox<M> = Inbox(
    storeCalls: seq<Items.GetItem>,
    request: MessagesRequest,
    results: Result<seq<Result<BankMessage<M>>>>)

  /** `GetMessagesFromInbox`: the watermark is read first and used unshifted
      as the "since" of a request on "INBOX"; a fetch error is returned, and
      otherwise every message is classified. */
  function GetMessagesFromInbox<M>(now: int, clientCreated: bool, item: Result<Items.Item>, parse: string -> Result<int>,
                                   messages: Result<seq<M>>, filters: seq<M -> bool>): (r: Inbox<M>)
    ensures r.storeCalls == LastProcessedDate(now, clientCreated, item, parse).1
    ensures r.request == MessagesRequest(Mailbox, LastProcessedDate(now, clientCreated, item, parse).0)
    ensures messages.Err? ==> r.results == Err(messages.error)
    ensures messages.Ok? ==> r.results.Ok? && |r.results.value| == |messages.value|
    ensures messages.Ok? ==> forall i :: 0 <= i < |messages.value| ==>
              r.results.value[i] == Classify(filters, messages.value[i])
  {
    var (since, calls) := LastProcessedDate(now, clientCreated, item, parse);
    var results :=
      match messages
      case Err(e) => Err(e)
      case Ok(ms) => Ok(seq(|ms|, i requires 0 <= i < |ms| => Classify(filters, ms[i])));
    Inbox(calls, MessagesRequest(Mailbox, since), results)
  }
}
