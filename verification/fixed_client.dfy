/** Model of internal/notifications/fixed_client.go: a notifications client
    that always sends from one number to one number through an SMS client. */
module FixedClient {
  import opened Wrappers

  /** `fixedClient`. */
  datatype FixedClient<T> = FixedClient(client: T, from: string, to: string)

  /** A call on the underlying SMS client: sender, recipient, text. */
  datatype SendCall = SendCall(from: string, to: string, msg: string)

  const NilClient: string := "client cannot be nil"
  const EmptyEndpoint: string := "from or to locations cannot be zero-values"

  /** `CreateFixedClient`: a nil client is refused first, then an empty
      sender or recipient; otherwise the three are stored as given. */
  function CreateFixedClient<T>(client: Option<T>, from: string, to: string): (r: Result<FixedClient<T>>)
    ensures client.None? ==> r == Err(NilClient)
    ensures client.Some? && (from == "" || to == "") ==> r == Err(EmptyEndpoint)
    ensures r.Ok? <==> client.Some? && from != "" && to != ""
    ensures r.Ok? ==> r.value.client == client.value && r.value.from == from && r.value.to == to
  {
    match client
    case None => Err(NilClient)
    case Some(c) =>
      if from == "" || to == "" then Err(EmptyEndpoint)
      else Ok(FixedClient(c, from, to))
  }

  /** `SendMsg`: forwards the stored sender and recipient with the message,
      and returns the underlying client's answer unchanged. */
  function SendMsg<T>(c: FixedClient<T>, msg: string, answer: Result<string>): (r: (Result<string>, SendCall))
    ensures r.0 == answer
    ensures r.1.from == c.from && r.1.to == c.to && r.1.msg == msg
  {
    (answer, SendCall(c.from, c.to, msg))
  }

  /** A client that was created sends from and to the endpoints it was
      created with, both non-empty. */
  lemma CreatedClientForwards<T>(client: T, from: string, to: string, msg: string, answer: Result<string>)
    requires from != "" && to != ""
    ensures var c := CreateFixedClient(Some(client), from, to);
            c.Ok? && SendMsg(c.value, msg, answer).1 == SendCall(from, to, msg)
            && SendMsg(c.value, msg, answer).1.from != "" && SendMsg(c.value, msg, answer).1.to != ""
  {
  }
}
