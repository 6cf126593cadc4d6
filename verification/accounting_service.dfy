/** Model of internal/services/accountingserv/service.go: the accounting
    service over Toshl clients, one client per token.  The Toshl client is a
    collaborator; its answers are inputs and its calls are returned. */
module AccountingService {
  import opened Wrappers
  import Currency
  import Accounting

  /** The fields of the Toshl library's records that the service reads or writes. */
  datatype ToshlAccount = ToshlAccount(id: string, name: string)
  datatype ToshlCategory = ToshlCategory(id: string, name: string, catType: string)
  datatype ToshlEntry = ToshlEntry(amount: int, code: string, date: int, description: string, account: string, category: string)

  /** The calls made on a Toshl client. */
  datatype ToshlCall =
    | Accounts
    | Categories
    | NewCategory(category: ToshlCategory)
    | NewEntry(entry: ToshlEntry)

  const Income: string := "income"
  const Expense: string := "expense"
  const Transaction: string := "transaction"
  const ValidCategoryTypes: seq<string> := [Income, Expense, Transaction]

  /** `ToshlService`: the clients built so far, by token. */
  datatype Service<C> = Service(clients: map<string, C>)

  /** `getClient`: the client stored for the token, or a new one from `builder`,
      which is then stored.  The flag says whether `builder` was called. */
  function GetClient<C>(svc: Service<C>, token: string, builder: string -> C): (r: (Service<C>, C, bool))
    ensures r.2 <==> token !in svc.clients
    ensures token in r.0.clients && r.0.clients[token] == r.1
    ensures token in svc.clients ==> r.0 == svc && r.1 == svc.clients[token]
    ensures !r.2 ==> r.0 == svc
    ensures forall t :: t != token ==> (t in r.0.clients <==> t in svc.clients)
    ensures forall t :: t != token && t in svc.clients ==> r.0.clients[t] == svc.clients[t]
  {
    if token in svc.clients then (svc, svc.clients[token], false)
    else (Service(svc.clients[token := builder(token)]), builder(token), true)
  }

  /** A token's client is built at most once: asking again returns the same
      client without building. */
  lemma ClientBuiltOncePerToken<C>(svc: Service<C>, token: string, builder: string -> C, builder2: string -> C)
    ensures var (s1, c1, _) := GetClient(svc, token, builder);
            GetClient(s1, token, builder2) == (s1, c1, false)
  {
  }

  /** `GetAccounts`: the client's accounts as id and name, in the client's order. */
  function GetAccounts(answer: Result<seq<ToshlAccount>>): (r: Result<seq<Accounting.Account>>)
    ensures answer.Err? ==> r == Err(answer.error)
    ensures answer.Ok? ==> r.Ok? && |r.value| == |answer.value|
    ensures answer.Ok? ==> forall i :: 0 <= i < |answer.value| ==>
              r.value[i].id == answer.value[i].id && r.value[i].name == answer.value[i].name
  {
    match answer
    case Err(e) => Err(e)
    case Ok(ac) => Ok(seq(|ac|, i requires 0 <= i < |ac| => Accounting.Account(ac[i].id, ac[i].name)))
  }

  /** `GetCategories`: the client's categories as id, name and type, in order. */
  function GetCategories(answer: Result<seq<ToshlCategory>>): (r: Result<seq<Accounting.Category>>)
    ensures answer.Err? ==> r == Err(answer.error)
    ensures answer.Ok? ==> r.Ok? && |r.value| == |answer.value|
    ensures answer.Ok? ==> forall i :: 0 <= i < |answer.value| ==>
              && r.value[i].id == answer.value[i].id && r.value[i].name == answer.value[i].name
              && r.value[i].catType == answer.value[i].catType
  {
    match answer
    case Err(e) => Err(e)
    case Ok(cs) => Ok(seq(|cs|, i requires 0 <= i < |cs| => Accounting.Category(cs[i].id, cs[i].name, cs[i].catType)))
  }

  /** `CreateCategory`: a type other than income, expense or transaction is
      refused without calling the client; otherwise the client creates the
      category (writing its id, given as `createdId`) and its error, if any, is
      returned unchanged. */
  function CreateCategory(catType: string, name: string, createdId: Result<string>): (r: (Result<Accounting.Category>, seq<ToshlCall>))
    ensures catType !in ValidCategoryTypes <==> r.1 == []
    ensures catType !in ValidCategoryTypes ==> r.0.Err?
    ensures catType in ValidCategoryTypes ==> r.1 == [NewCategory(ToshlCategory("", name, catType))]
    ensures catType in ValidCategoryTypes && createdId.Err? ==> r.0 == Err(createdId.error)
    ensures catType in ValidCategoryTypes && createdId.Ok? ==> r.0 == Ok(Accounting.Category(createdId.value, name, catType))
  {
    if catType !in ValidCategoryTypes then (Err("\"" + catType + "\" is not a valid category"), [])
    else
      var calls := [NewCategory(ToshlCategory("", name, catType))];
      match createdId
      case Err(e) => (Err(e), calls)
      case Ok(id) => (Ok(Accounting.Category(id, name, catType)), calls)
  }

  const CouldNotCreateEntry: string := "could not create entry: "

  /** `CreateEntry`: the entry is sent with the input's amount, currency code,
      account, category and description; a client error comes back wrapped. */
  function CreateEntry(input: Accounting.EntryInput, clientError: Option<string>): (r: (Option<string>, seq<ToshlCall>))
    ensures |r.1| == 1 && r.1[0].NewEntry?
    ensures var e := r.1[0].entry;
            && e.amount == input.currency.hundredths && e.code == input.currency.code
            && e.account == input.accountId && e.category == input.categoryId
            && e.description == input.description && e.date == input.date
    ensures clientError.None? <==> r.0.None?
    ensures clientError.Some? ==> r.0 == Some(CouldNotCreateEntry + clientError.value)
  {
    var entry := ToshlEntry(input.currency.hundredths, input.currency.code, input.date,
                            input.description, input.accountId, input.categoryId);
    match clientError
    case None => (None, [NewEntry(entry)])
    case Some(e) => (Some(CouldNotCreateEntry + e), [NewEntry(entry)])
  }
}
