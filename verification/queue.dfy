/** Model of internal/queue/impl/mutex/queue.go: a FIFO queue with an optional
    capacity.  The mutex only serialises calls, so each operation is modelled
    as a function from the queue before the call to the queue after it. */
module Queue {
  import opened Wrappers

  /** `mutexFifoQueue`: `maxSize <= 0` means unbounded. */
  datatype Queue<T> = Queue(maxSize: int, store: seq<T>)

  /** The queue never holds more than a positive capacity. */
  predicate Bounded<T>(q: Queue<T>)
  {
    q.maxSize > 0 ==> |q.store| <= q.maxSize
  }

  /** `CreateQueue`: empty, with the given capacity. */
  function CreateQueue<T>(maxSize: int): (q: Queue<T>)
    ensures q.maxSize == maxSize && |q.store| == 0 && Bounded(q)
  {
    Queue(maxSize, [])
  }

  /** `PushBack`: refused (false, unchanged) when a bounded queue is full;
      otherwise appended at the back. */
  function PushBack<T>(q: Queue<T>, e: T): (r: (Queue<T>, bool))
    ensures !r.1 <==> q.maxSize > 0 && |q.store| == q.maxSize
    ensures !r.1 ==> r.0 == q
    ensures r.1 ==> r.0 == Queue(q.maxSize, q.store + [e]) && Size(r.0) == Size(q) + 1
    ensures Bounded(q) ==> Bounded(r.0)
  {
    if q.maxSize > 0 && |q.store| == q.maxSize then (q, false)
    else (Queue(q.maxSize, q.store + [e]), true)
  }

  /** `Pop`: the front element, removed; an error on an empty queue, which is left as it is. */
  function Pop<T>(q: Queue<T>): (r: (Queue<T>, Result<T>))
    ensures |q.store| == 0 <==> r.1.Err?
    ensures r.1.Err? ==> r.0 == q
    ensures r.1.Ok? ==> [r.1.value] + r.0.store == q.store && r.0.maxSize == q.maxSize
    ensures Bounded(q) ==> Bounded(r.0)
  {
    if |q.store| == 0 then (q, Err("queue is empty"))
    else (Queue(q.maxSize, q.store[1..]), Ok(q.store[0]))
  }

  function Size<T>(q: Queue<T>): (n: nat)
    ensures n == |q.store|
  {
    |q.store|
  }

  /** `IsEmpty`. */
  function IsEmpty<T>(q: Queue<T>): (b: bool)
    ensures b <==> Size(q) == 0
  {
    Size(q) == 0
  }

  /** `IsFull`: only a bounded queue can be full. */
  function IsFull<T>(q: Queue<T>): (b: bool)
    ensures b <==> q.maxSize > 0 && Size(q) == q.maxSize
    ensures q.maxSize <= 0 ==> !b
  {
    q.maxSize > 0 && Size(q) == q.maxSize
  }

  /** A push is refused exactly when the queue reports itself full. */
  lemma PushRefusedIffFull<T>(q: Queue<T>, e: T)
    ensures !PushBack(q, e).1 <==> IsFull(q)
  {
  }

  /** Pushes `xs` one after the other, collecting the results. */
  function PushAll<T>(q: Queue<T>, xs: seq<T>): (r: (Queue<T>, seq<bool>))
    ensures |r.1| == |xs|
    decreases |xs|
  {
    if |xs| == 0 then (q, [])
    else
      var (q1, ok) := PushBack(q, xs[0]);
      var (q2, oks) := PushAll(q1, xs[1..]);
      (q2, [ok] + oks)
  }

  /** Up to the capacity every push succeeds and the elements queue up in order. */
  lemma {:induction false} PushAllWithinCapacity<T>(q: Queue<T>, xs: seq<T>)
    requires q.maxSize <= 0 || |q.store| + |xs| <= q.maxSize
    ensures forall i :: 0 <= i < |xs| ==> PushAll(q, xs).1[i]
    ensures PushAll(q, xs).0 == Queue(q.maxSize, q.store + xs)
    decreases |xs|
  {
    if |xs| > 0 {
      var q1 := PushBack(q, xs[0]).0;
      PushAllWithinCapacity(q1, xs[1..]);
      assert q.store + [xs[0]] + xs[1..] == q.store + xs;
    }
  }

  /** A queue of capacity `n` accepts `n` elements, is then full, and refuses
      the next one without changing. */
  lemma FillToCapacity<T>(n: nat, xs: seq<T>, extra: T)
    requires n > 0 && |xs| == n
    ensures var full := PushAll(CreateQueue<T>(n), xs).0;
            && (forall i :: 0 <= i < n ==> PushAll(CreateQueue<T>(n), xs).1[i])
            && IsFull(full) && Size(full) == n
            && PushBack(full, extra) == (full, false)
  {
    PushAllWithinCapacity(CreateQueue<T>(n), xs);
  }

  /** Pops until the queue is empty, as the notification store drains it. */
  method DrainAll<T>(q: Queue<T>) returns (popped: seq<T>, rest: Queue<T>)
    ensures popped == q.store
    ensures IsEmpty(rest) && rest.maxSize == q.maxSize
  {
    popped := [];
    rest := q;
    while !IsEmpty(rest)
      invariant popped + rest.store == q.store
      invariant rest.maxSize == q.maxSize
      decreases |rest.store|
    {
      var (next, e) := Pop(rest);
      popped := popped + [e.value];
      rest := next;
    }
  }

  /** FIFO: what is pushed into an unbounded queue comes out in the same order. */
  method FirstInFirstOut<T>(xs: seq<T>) returns (out: seq<T>)
    ensures out == xs
  {
    var q := PushAll(CreateQueue<T>(0), xs).0;
    PushAllWithinCapacity(CreateQueue<T>(0), xs);
    out, q := DrainAll(q);
  }
}
