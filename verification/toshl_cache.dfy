/** Model of internal/sync/toshl.go: the per-run `toshlCache` in front of the
    Toshl client (category ids per transaction kind, the account-number map
    built once) and `createEntry`.  The client's answers are inputs and the
    calls made are returned as a trace. */
module ToshlSync {
  import opened Wrappers
  import Text
  import Currency
  import TypesTransaction
  import AccountNames

  /** The parts of a Toshl account and category the code reads. */
  datatype Account = Account(id: string, name: string)
  datatype Category = Category(id: string, name: string)

  /** What the Toshl client answers; `createdId` is the id the client writes
      into a category it creates. */
  datatype Client = Client(
    accounts: Result<seq<Account>>,
    categories: Result<seq<Category>>,
    createdId: Result<string>,
    entryError: Option<string>)

  /** The entry sent to Toshl; the date is the instant, its rendering as a
      calendar day in the configured zone is not modelled. */
  datatype Entry = Entry(amount: int, currency: string, date: int, description: string, account: string, category: string)

  /** The client calls, in the order they are made. */
  datatype Call =
    | GetAccounts
    | GetCategories
    | CreateCategory(name: string, catType: string)
    | CreateEntry(entry: Entry)

  /** `toshlCache`: the client (nil is possible), the category id per kind, and
      the account-number map once it has been built. */
  datatype Cache = Cache(client: Option<Client>, cats: map<TypesTransaction.TransactionType, string>,
                         accounts: Option<map<string, string>>)

  const CategoryPrefix: string := "PENDING_"
  const InvalidType: string := "transaction type is invalid"
  const NilClient: string := "client is nil"
  const MappingFailed: string := "could not generate accounts mapping cache"
  const CouldNotCreateEntry: string := "could not create entry"
  /** The id in the message is the parameter as overwritten by the failed lookup, which is empty. */
  const AccountNotFound: string := "mappable account not found for []"

  /** The index of the first category called `name`, if any. */
  function FirstNamed(cs: seq<Category>, name: string): (r: Option<nat>)
    ensures r.None? <==> forall i :: 0 <= i < |cs| ==> cs[i].name != name
    ensures r.Some? ==> r.value < |cs| && cs[r.value].name == name
                        && forall j :: 0 <= j < r.value ==> cs[j].name != name
    decreases |cs|
  {
    if |cs| == 0 then None
    else if cs[0].name == name then Some(0)
    else match FirstNamed(cs[1..], name)
         case None => None
         case Some(i) => Some(i + 1)
  }

  /** "PENDING_" and the kind's name in capitals. */
  function CategoryName(t: TypesTransaction.TransactionType): string
  {
    CategoryPrefix + Text.ToUpper(TypesTransaction.String(t))
  }

  /** `createCategoryIfAbsent`: an invalid kind is refused before any call;
      otherwise the id of the first category named "PENDING_<KIND>", or of a
      new category of that name and kind. */
  function CreateCategoryIfAbsent(client: Client, t: TypesTransaction.TransactionType): (r: (Result<string>, seq<Call>))
    ensures !TypesTransaction.IsValid(t) ==> r == (Err(InvalidType), [])
    ensures TypesTransaction.IsValid(t) && client.categories.Err? ==> r.0.Err? && r.1 == [GetCategories]
    ensures TypesTransaction.IsValid(t) && client.categories.Ok? ==>
              var cs := client.categories.value;
              && (forall i :: 0 <= i < |cs| && cs[i].name == CategoryName(t) && (forall j :: 0 <= j < i ==> cs[j].name != CategoryName(t)) ==>
                    r == (Ok(cs[i].id), [GetCategories]))
              && ((forall i :: 0 <= i < |cs| ==> cs[i].name != CategoryName(t)) ==>
                    && r.1 == [GetCategories, CreateCategory(CategoryName(t), TypesTransaction.String(t))]
                    && (r.0.Ok? <==> client.createdId.Ok?)
                    && (r.0.Ok? ==> r.0.value == client.createdId.value))
  {
    if !TypesTransaction.IsValid(t) then (Err(InvalidType), [])
    else
      var name := CategoryName(t);
      match client.categories
      case Err(e) => (Err("could not get categories: " + e), [GetCategories])
      case Ok(cs) =>
        match FirstNamed(cs, name)
        case Some(i) => (Ok(cs[i].id), [GetCategories])
        case None =>
          var calls := [GetCategories, CreateCategory(name, TypesTransaction.String(t))];
          match client.createdId
          case Err(e) => (Err("could not create category for " + TypesTransaction.String(t) + ": " + e), calls)
          case Ok(id) => (Ok(id), calls)
  }

  /** `GetCategory`: a nil client is an error; a cached id is returned without
      any call; otherwise the id is looked up or created and cached, unless
      that fails. */
  function GetCategory(cache: Cache, t: TypesTransaction.TransactionType): (r: (Cache, Result<string>, seq<Call>))
    ensures cache.client.None? ==> r == (cache, Err(NilClient), [])
    ensures cache.client.Some? && t in cache.cats ==> r == (cache, Ok(cache.cats[t]), [])
    ensures cache.client.Some? && t !in cache.cats ==>
              var (id, calls) := CreateCategoryIfAbsent(cache.client.value, t);
              && r.2 == calls
              && (id.Err? ==> r.0 == cache && r.1 == id)
              && (id.Ok? ==> r.0 == cache.(cats := cache.cats[t := id.value]) && r.1 == id)
  {
    if cache.client.None? then (cache, Err(NilClient), [])
    else if t in cache.cats then (cache, Ok(cache.cats[t]), [])
    else
      var (id, calls) := CreateCategoryIfAbsent(cache.client.value, t);
      match id
      case Err(e) => (cache, Err(e), calls)
      case Ok(v) => (cache.(cats := cache.cats[t := v]), Ok(v), calls)
  }

  /** After one successful `GetCategory`, asking again for the same kind returns
      the same id without calling the client and leaves the cache as it is. */
  lemma GetCategoryMemoises(cache: Cache, t: TypesTransaction.TransactionType)
    requires GetCategory(cache, t).1.Ok?
    ensures var (c1, id1, _) := GetCategory(cache, t);
            GetCategory(c1, t) == (c1, id1, [])
  {
  }

  /** A failed `GetCategory` caches nothing: the next call asks the client again. */
  lemma GetCategoryFailureNotCached(cache: Cache, t: TypesTransaction.TransactionType)
    requires cache.client.Some? && GetCategory(cache, t).1.Err?
    ensures GetCategory(cache, t).0 == cache
    ensures TypesTransaction.IsValid(t) ==> GetCategory(GetCategory(cache, t).0, t).2 != []
  {
  }

  /** The accounts as (name, id) pairs, in list order. */
  function NamedIds(accounts: seq<Account>): (entries: seq<(string, string)>)
    ensures |entries| == |accounts|
    ensures forall i :: 0 <= i < |accounts| ==> entries[i] == (accounts[i].name, accounts[i].id)
  {
    seq(|accounts|, i requires 0 <= i < |accounts| => (accounts[i].name, accounts[i].id))
  }

  /** `buildAccountsCache`: each account-number token of an account's name
      maps to the account's id, the later account winning. */
  function BuildAccountsCache(client: Client): (r: Result<map<string, string>>)
    ensures r.Err? <==> client.accounts.Err?
  {
    match client.accounts
    case Err(e) => Err(e)
    case Ok(accounts) => Ok(AccountNames.TokenMap(NamedIds(accounts)))
  }

  /** The built map holds exactly the tokens of the account names, each mapped
      to the id of the last account whose name yields it. */
  lemma AccountsCacheSpec(client: Client)
    requires client.accounts.Ok?
    ensures var accounts := client.accounts.value;
            var m := BuildAccountsCache(client).value;
            && (forall t :: t in m <==> exists i :: 0 <= i < |accounts| && t in AccountNames.Tokens(accounts[i].name))
            && (forall t :: t in m ==> exists i :: AccountNames.LastOwner(AccountNames.Tokenise(NamedIds(accounts)), t, i)
                                                  && m[t] == accounts[i].id)
  {
    AccountsCacheDomain(client);
    AccountsCacheLast(client);
  }

  lemma AccountsCacheDomain(client: Client)
    requires client.accounts.Ok?
    ensures var accounts := client.accounts.value;
            forall t :: t in BuildAccountsCache(client).value <==>
                          exists i :: 0 <= i < |accounts| && t in AccountNames.Tokens(accounts[i].name)
  {
    var accounts := client.accounts.value;
    var entries := NamedIds(accounts);
    var m := BuildAccountsCache(client).value;
    assert m == AccountNames.TokenMap(entries);
    forall t ensures t in m <==> exists i :: 0 <= i < |accounts| && t in AccountNames.Tokens(accounts[i].name)
    {
      assert t in m <==> exists i :: 0 <= i < |entries| && t in AccountNames.Tokens(entries[i].0) by {
        AccountNames.TokenMapSpec(entries);
      }
      if t in m {
        var i :| 0 <= i < |entries| && t in AccountNames.Tokens(entries[i].0);
        assert t in AccountNames.Tokens(accounts[i].name);
      }
      if exists i :: 0 <= i < |accounts| && t in AccountNames.Tokens(accounts[i].name) {
        var i :| 0 <= i < |accounts| && t in AccountNames.Tokens(accounts[i].name);
        assert t in AccountNames.Tokens(entries[i].0);
      }
    }
  }

  lemma AccountsCacheLast(client: Client)
    requires client.accounts.Ok?
    ensures var accounts := client.accounts.value;
            var m := BuildAccountsCache(client).value;
            forall t :: t in m ==> exists i :: AccountNames.LastOwner(AccountNames.Tokenise(NamedIds(accounts)), t, i)
                                              && m[t] == accounts[i].id
  {
    var accounts := client.accounts.value;
    var entries := NamedIds(accounts);
    AccountNames.TokenMapSpec(entries);
  }

  /** `GetMappableAccount`: the map is built on the first call only, and a
      failure to build it panics; an unknown number is an error. */
  function GetMappableAccount(cache: Cache, id: string): (r: Exec<(Cache, Result<string>, seq<Call>)>)
    ensures cache.accounts.None? && cache.client.None? ==> r.Panicked?
    ensures cache.accounts.None? && cache.client.Some? ==>
              (r.Panicked? <==> cache.client.value.accounts.Err?)
    ensures r.Done? ==> && r.value.0.accounts.Some?
                        && r.value.0 == cache.(accounts := r.value.0.accounts)
                        && (cache.accounts.Some? ==> r.value.0 == cache && r.value.2 == [])
                        && (cache.accounts.None? ==> r.value.2 == [GetAccounts])
                        && (id in r.value.0.accounts.value <==> r.value.1.Ok?)
                        && (r.value.1.Ok? ==> r.value.1.value == r.value.0.accounts.value[id])
                        && (r.value.1.Err? ==> r.value.1.error == AccountNotFound)
  {
    var built: Exec<(Cache, seq<Call>)> :=
      if cache.accounts.Some? then Done((cache, []))
      else if cache.client.None? then Panicked(NilDereference)
      else match BuildAccountsCache(cache.client.value)
           case Err(_) => Panicked(MappingFailed)
           case Ok(m) => Done((cache.(accounts := Some(m)), [GetAccounts]));
    match built
    case Panicked(why) => Panicked(why)
    case Done((c, calls)) =>
      var m := c.accounts.value;
      if id in m then Done((c, Ok(m[id]), calls)) else Done((c, Err(AccountNotFound), calls))
  }

  /** The account map is built at most once: a second lookup, whatever the
      number, makes no client call and keeps the cache. */
  lemma MappableAccountsBuiltOnce(cache: Cache, id1: string, id2: string)
    requires GetMappableAccount(cache, id1).Done?
    ensures var c1 := GetMappableAccount(cache, id1).value.0;
            GetMappableAccount(c1, id2).Done? && GetMappableAccount(c1, id2).value.0 == c1
            && GetMappableAccount(c1, id2).value.2 == []
  {
  }

  /** The signed amount: negative for an expense. */
  function SignedAmount(tx: TypesTransaction.TransactionInfo): (a: int)
    ensures tx.kind == TypesTransaction.Expense ==> a == -tx.value.hundredths
    ensures tx.kind != TypesTransaction.Expense ==> a == tx.value.hundredths
  {
    if tx.kind == TypesTransaction.Expense then -tx.value.hundredths else tx.value.hundredths
  }

  /** The outcome of `createEntry` that did not panic: the cache after the
      call, the entry or the error, and the calls made. */
  datatype EntryOutcome = EntryOutcome(cache: Cache, entry: Result<Entry>, calls: seq<Call>)

  /** `createEntry`: the account is resolved before the category and either
      failure stops before the entry.  Once both succeed, an unknown time zone
      panics, and otherwise the entry is created, or the entry client's error
      comes back wrapped.  `zoneKnown` says whether the configured
      zone loads. */
  function CreateEntryFor(cache: Cache, client: Client, zoneKnown: bool, tx: TypesTransaction.TransactionInfo): (r: Exec<EntryOutcome>)
    ensures GetMappableAccount(cache, tx.account).Panicked? ==> r.Panicked?
    ensures r.Done? && r.value.entry.Ok? ==>
              && zoneKnown
              && var e := r.value.entry.value;
                 && e.amount == SignedAmount(tx)
                 && e.currency == Currency.COP
                 && e.date == tx.date
                 && e.description == "** " + TypesTransaction.String(tx.kind) + " de " + tx.place
                 && |r.value.calls| >= 1 && r.value.calls[|r.value.calls| - 1] == CreateEntry(e)
                 && client.entryError.None?
    ensures var a := GetMappableAccount(cache, tx.account);
            (a.Done? && a.value.1.Ok? && GetCategory(a.value.0, tx.kind).1.Ok?) ==>
              && (r.Panicked? <==> !zoneKnown)
              && (zoneKnown && client.entryError.None? ==>
                    && r.Done? && r.value.entry.Ok?
                    && r.value.entry.value.account == a.value.1.value
                    && r.value.entry.value.category == GetCategory(a.value.0, tx.kind).1.value)
              && (zoneKnown && client.entryError.Some? ==>
                    r.Done? && r.value.entry == Err(CouldNotCreateEntry + ": " + client.entryError.value))
  {
    match GetMappableAccount(cache, tx.account)
    case Panicked(why) => Panicked(why)
    case Done((c1, accountId, calls1)) =>
      if accountId.Err? then Done(EntryOutcome(c1, Err(accountId.error), calls1))
      else
        var (c2, categoryId, calls2) := GetCategory(c1, tx.kind);
        if categoryId.Err? then Done(EntryOutcome(c2, Err(categoryId.error), calls1 + calls2))
        else if !zoneKnown then Panicked("unknown time zone")
        else
          var entry := Entry(SignedAmount(tx), Currency.COP, tx.date,
                             "** " + TypesTransaction.String(tx.kind) + " de " + tx.place,
                             accountId.value, categoryId.value);
          var calls := calls1 + calls2 + [CreateEntry(entry)];
          match client.entryError
          case Some(e) => Done(EntryOutcome(c2, Err(CouldNotCreateEntry + ": " + e), calls))
          case None => Done(EntryOutcome(c2, Ok(entry), calls))
  }

  /** Some call of the trace creates an entry. */
  predicate CreatesEntry(calls: seq<Call>)
  {
    exists i :: 0 <= i < |calls| && calls[i].CreateEntry?
  }

  /** An account number the map does not know stops `createEntry` before the
      category is looked up: the only possible call is the map's construction. */
  lemma UnknownAccountStopsEarly(cache: Cache, client: Client, zoneKnown: bool, tx: TypesTransaction.TransactionInfo)
    requires GetMappableAccount(cache, tx.account).Done?
    requires GetMappableAccount(cache, tx.account).value.1.Err?
    ensures var r := CreateEntryFor(cache, client, zoneKnown, tx);
            && r.Done? && r.value.entry == Err(AccountNotFound)
            && forall i :: 0 <= i < |r.value.calls| ==> r.value.calls[i] == GetAccounts
  {
  }

  /** A failed category lookup stops `createEntry` before the entry. */
  lemma CategoryFailureCreatesNoEntry(cache: Cache, client: Client, zoneKnown: bool, tx: TypesTransaction.TransactionInfo)
    requires GetMappableAccount(cache, tx.account).Done?
    requires var (c1, accountId, _) := GetMappableAccount(cache, tx.account).value;
             accountId.Ok? && GetCategory(c1, tx.kind).1.Err?
    ensures var r := CreateEntryFor(cache, client, zoneKnown, tx);
            r.Done? && r.value.entry.Err? && !CreatesEntry(r.value.calls)
  {
    var (c1, accountId, calls1) := GetMappableAccount(cache, tx.account).value;
    var (c2, categoryId, calls2) := GetCategory(c1, tx.kind);
    assert forall i :: 0 <= i < |calls1| ==> calls1[i] == GetAccounts;
    assert !CreatesEntry(calls2);
  }

  /** A created entry is filed under the mapped account and the category of
      the transaction's kind. */
  lemma CreatedEntryTargets(cache: Cache, client: Client, zoneKnown: bool, tx: TypesTransaction.TransactionInfo)
    requires CreateEntryFor(cache, client, zoneKnown, tx).Done?
    requires CreateEntryFor(cache, client, zoneKnown, tx).value.entry.Ok?
    ensures var e := CreateEntryFor(cache, client, zoneKnown, tx).value.entry.value;
            var (c1, accountId, _) := GetMappableAccount(cache, tx.account).value;
            && accountId == Ok(e.account)
            && GetCategory(c1, tx.kind).1 == Ok(e.category)
  {
  }
}
