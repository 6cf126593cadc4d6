/** Model of internal/notifications/notifications.go: the process-wide
    notification store.  Messages queue up (in an unbounded FIFO queue created
    on first use) until the store is closed, when they are sent as one
    newline-joined text through the client set beforehand.  The global is an
    explicit state passed in and returned; the client's answer to a send is
    only logged, so it does not enter the model. */
module NotificationStore {
  import opened Wrappers
  import Text
  import Queue

  /** `notifications`; `queue` is None until the `sync.Once` has created it. */
  datatype Store<C> = Store(queue: Option<Queue.Queue<string>>, closed: bool, client: Option<C>)

  const NilClient: string := "notifications client cannot be nil"
  const ClientAlreadySet: string := "notifications client is already set: "
  const Closed: string := "notifications are closed"
  const ErrorPrefix: string := "ERROR: "

  /** The store before any call. */
  function Initial<C>(): (st: Store<C>)
    ensures st.queue.None? && !st.closed && st.client.None?
  {
    Store(None, false, None)
  }

  /** The store's queue, once created, is the unbounded one `CreateQueue(0)` made. */
  predicate Valid<C>(st: Store<C>)
  {
    st.queue.Some? ==> st.queue.value.maxSize == 0
  }

  /** `createNotificationsStore`: creates the queue on the first call only. */
  function Created<C>(st: Store<C>): (r: Store<C>)
    ensures r.queue.Some? && r.closed == st.closed && r.client == st.client
    ensures st.queue.Some? ==> r == st
    ensures st.queue.None? ==> r.queue == Some(Queue.CreateQueue(0))
    ensures Valid(st) ==> Valid(r)
  {
    if st.queue.Some? then st else st.(queue := Some(Queue.CreateQueue(0)))
  }

  /** What is waiting to be sent, in arrival order. */
  function Pending<C>(st: Store<C>): seq<string>
  {
    if st.queue.Some? then st.queue.value.store else []
  }

  /** `SetNotificationsClient`: refuses a nil client and a second client (the
      first one is kept); otherwise sets it. */
  function SetNotificationsClient<C>(st: Store<C>, ns: Option<C>): (r: (Store<C>, Option<string>))
    ensures ns.None? ==> r == (Created(st), Some(NilClient))
    ensures ns.Some? && st.client.Some? ==> r.0 == Created(st) && r.1 == Some(ClientAlreadySet)
    ensures ns.Some? && st.client.None? ==> r == (Created(st).(client := ns), None)
    ensures r.1.Some? ==> r.0.client == st.client
    ensures Pending(r.0) == Pending(st) && r.0.closed == st.closed
  {
    var st1 := Created(st);
    if ns.None? then (st1, Some(NilClient))
    else if st1.client.Some? then (st1, Some(ClientAlreadySet))
    else (st1.(client := ns), None)
  }

  /** `PushNotification`: refused once closed, leaving the store as it was;
      otherwise the text goes to the back of the queue. */
  function PushNotification<C>(st: Store<C>, s: string): (r: (Store<C>, Option<string>))
    requires Valid(st)
    ensures st.closed ==> r == (st, Some(Closed))
    ensures !st.closed ==> r.1.None? && Pending(r.0) == Pending(st) + [s]
    ensures !st.closed ==> r.0.client == st.client && !r.0.closed
    ensures Valid(r.0)
  {
    if st.closed then (st, Some(Closed))
    else
      var st1 := Created(st);
      var q := Queue.PushBack(st1.queue.value, s).0;
      (st1.(queue := Some(q)), None)
  }

  /** `ErrorNotify`: pushes the message with the "ERROR: " prefix. */
  function ErrorNotify<C>(st: Store<C>, msg: string): (r: (Store<C>, Option<string>))
    requires Valid(st)
    ensures st.closed ==> r == (st, Some(Closed))
    ensures !st.closed ==> r.1.None? && Pending(r.0) == Pending(st) + [ErrorPrefix + msg]
    ensures Valid(r.0)
  {
    PushNotification(st, ErrorPrefix + msg)
  }

  /** `flushNotifications`: without a client nothing is sent and the queue
      stays as it is; with one, the queue is drained front to back and the
      joined text is sent once, unless it is empty. */
  method Flush<C>(st: Store<C>) returns (r: Store<C>, sent: seq<string>)
    requires Valid(st)
    ensures Valid(r) && r.closed == st.closed && r.client == st.client
    ensures st.client.None? ==> r == Created(st) && sent == []
    ensures st.client.Some? ==> Pending(r) == []
    ensures st.client.Some? && Text.Join(Pending(st), "\n") == "" ==> sent == []
    ensures st.client.Some? && Text.Join(Pending(st), "\n") != "" ==> sent == [Text.Join(Pending(st), "\n")]
  {
    var st1 := Created(st);
    if st1.client.None? {
      return st1, [];
    }
    var condensed, rest := Queue.DrainAll(st1.queue.value);
    r := st1.(queue := Some(rest));
    var complete := Text.Join(condensed, "\n");
    if complete == "" {
      return r, [];
    }
    sent := [complete];
  }

  /** `Close`: marks the store closed, then flushes. */
  method Close<C>(st: Store<C>) returns (r: Store<C>, sent: seq<string>)
    requires Valid(st)
    ensures Valid(r) && r.closed && r.client == st.client
    ensures st.client.None? ==> Pending(r) == Pending(st) && sent == []
    ensures st.client.Some? ==> Pending(r) == []
    ensures st.client.Some? && Text.Join(Pending(st), "\n") != "" ==> sent == [Text.Join(Pending(st), "\n")]
    ensures st.client.Some? && Text.Join(Pending(st), "\n") == "" ==> sent == []
  {
    r, sent := Flush(st.(closed := true));
  }

  /** Pushes each text in turn. */
  function PushAll<C>(st: Store<C>, xs: seq<string>): (r: Store<C>)
    requires Valid(st)
    ensures Valid(r)
    decreases |xs|
  {
    if |xs| == 0 then st
    else PushAll(PushNotification(st, xs[0]).0, xs[1..])
  }

  /** Before closing, pushed texts queue up in order. */
  lemma {:induction false} PushAllQueues<C>(st: Store<C>, xs: seq<string>)
    requires Valid(st) && !st.closed
    ensures Pending(PushAll(st, xs)) == Pending(st) + xs
    ensures !PushAll(st, xs).closed && PushAll(st, xs).client == st.client
    decreases |xs|
  {
    if |xs| > 0 {
      var st1 := PushNotification(st, xs[0]).0;
      PushAllQueues(st1, xs[1..]);
      assert Pending(st) + [xs[0]] + xs[1..] == Pending(st) + xs;
    }
  }

  /** The life of the store: set a client, push texts, close.  Exactly one
      message is sent, holding the texts in push order, unless it would be
      empty; afterwards every push is refused. */
  method Lifecycle<C>(client: C, xs: seq<string>, late: string) returns (sent: seq<string>, lateError: Option<string>)
    ensures Text.Join(xs, "\n") != "" ==> sent == [Text.Join(xs, "\n")]
    ensures Text.Join(xs, "\n") == "" ==> sent == []
    ensures lateError == Some(Closed)
  {
    var (st, err) := SetNotificationsClient(Initial<C>(), Some(client));
    PushAllQueues(st, xs);
    var st2 := PushAll(st, xs);
    assert Pending(st) == [];
    assert Pending(st2) == xs;
    var st3;
    st3, sent := Close(st2);
    lateError := PushNotification(st3, late).1;
  }
}
