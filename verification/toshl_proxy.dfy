/** Model of internal/services/accountingserv/proxy/toshl.go: a read-through
    cache in front of a Toshl client.  Categories and accounts are cached
    under their own keys with the default expiration; creating a category
    drops the cached categories.  Durations and instants are nanoseconds. */
module ToshlProxy {
  import opened Wrappers
  import AccountingService

  /** What the inner client answers. */
  datatype Inner = Inner(
    categories: Result<seq<AccountingService.ToshlCategory>>,
    accounts: Result<seq<AccountingService.ToshlAccount>>,
    createCategoryError: Option<string>,
    createEntryError: Option<string>)

  /** A cached value and the instant after which it is stale (None: never). */
  datatype Item<T> = Item(value: T, expires: Option<int>)

  /** `ToshlCacheClient`: the configured expiration (0 means the default) and
      the two cache keys. */
  datatype Proxy = Proxy(
    expirationTime: int,
    categories: Option<Item<seq<AccountingService.ToshlCategory>>>,
    accounts: Option<Item<seq<AccountingService.ToshlAccount>>>)

  const Minute: int := 60 * 1000000000
  const DefaultExpirationTime: int := 5 * Minute

  /** The expiration `init` gives the cache: the configured one unless it is zero. */
  function Expiration(p: Proxy): (d: int)
    ensures p.expirationTime == 0 ==> d == DefaultExpirationTime
    ensures p.expirationTime != 0 ==> d == p.expirationTime
  {
    if p.expirationTime == 0 then DefaultExpirationTime else p.expirationTime
  }

  /** An item stored at `now`: it expires `Expiration` later, or never when
      that is not positive, as the in-memory cache treats it. */
  function Store<T>(p: Proxy, v: T, now: int): (it: Item<T>)
    ensures it.value == v
    ensures Expiration(p) > 0 ==> it.expires == Some(now + Expiration(p))
    ensures Expiration(p) <= 0 ==> it.expires.None?
  {
    Item(v, if Expiration(p) > 0 then Some(now + Expiration(p)) else None)
  }

  /** The cache's `Get`: the value if present and not yet stale. */
  function Fresh<T>(it: Option<Item<T>>, now: int): (r: Option<T>)
    ensures r.Some? <==> it.Some? && (it.value.expires.None? || now <= it.value.expires.value)
    ensures r.Some? ==> r.value == it.value.value
  {
    if it.Some? && (it.value.expires.None? || now <= it.value.expires.value) then Some(it.value.value) else None
  }

  /** `Categories`: a fresh cached list is returned without calling the inner
      client; otherwise the inner client is asked and a successful answer is cached. */
  function Categories(p: Proxy, inner: Inner, now: int): (r: (Proxy, Result<seq<AccountingService.ToshlCategory>>, seq<AccountingService.ToshlCall>))
    ensures Fresh(p.categories, now).Some? ==> r == (p, Ok(Fresh(p.categories, now).value), [])
    ensures Fresh(p.categories, now).None? ==> r.2 == [AccountingService.Categories] && r.1 == inner.categories
    ensures Fresh(p.categories, now).None? && inner.categories.Err? ==> r.0 == p
    ensures Fresh(p.categories, now).None? && inner.categories.Ok? ==>
              r.0 == p.(categories := Some(Store(p, inner.categories.value, now)))
  {
    match Fresh(p.categories, now)
    case Some(v) => (p, Ok(v), [])
    case None =>
      match inner.categories
      case Err(e) => (p, Err(e), [AccountingService.Categories])
      case Ok(v) => (p.(categories := Some(Store(p, v, now))), Ok(v), [AccountingService.Categories])
  }

  /** `Accounts`: the same read-through rule under its own key. */
  function Accounts(p: Proxy, inner: Inner, now: int): (r: (Proxy, Result<seq<AccountingService.ToshlAccount>>, seq<AccountingService.ToshlCall>))
    ensures Fresh(p.accounts, now).Some? ==> r == (p, Ok(Fresh(p.accounts, now).value), [])
    ensures Fresh(p.accounts, now).None? ==> r.2 == [AccountingService.Accounts] && r.1 == inner.accounts
    ensures Fresh(p.accounts, now).None? && inner.accounts.Err? ==> r.0 == p
    ensures Fresh(p.accounts, now).None? && inner.accounts.Ok? ==>
              r.0 == p.(accounts := Some(Store(p, inner.accounts.value, now)))
  {
    match Fresh(p.accounts, now)
    case Some(v) => (p, Ok(v), [])
    case None =>
      match inner.accounts
      case Err(e) => (p, Err(e), [AccountingService.Accounts])
      case Ok(v) => (p.(accounts := Some(Store(p, v, now))), Ok(v), [AccountingService.Accounts])
  }

  /** `CreateCategory`: forwarded, and the cached categories are dropped
      afterwards whether or not the creation succeeded. */
  function CreateCategory(p: Proxy, inner: Inner, category: AccountingService.ToshlCategory): (r: (Proxy, Option<string>, seq<AccountingService.ToshlCall>))
    ensures r.0.categories.None? && r.0.accounts == p.accounts && r.0.expirationTime == p.expirationTime
    ensures r.1 == inner.createCategoryError
    ensures r.2 == [AccountingService.NewCategory(category)]
  {
    (p.(categories := None), inner.createCategoryError, [AccountingService.NewCategory(category)])
  }

  /** `CreateEntry`: forwarded; the cache is untouched. */
  function CreateEntry(p: Proxy, inner: Inner, entry: AccountingService.ToshlEntry): (r: (Proxy, Option<string>, seq<AccountingService.ToshlCall>))
    ensures r.0 == p && r.1 == inner.createEntryError && r.2 == [AccountingService.NewEntry(entry)]
  {
    (p, inner.createEntryError, [AccountingService.NewEntry(entry)])
  }

  /** Read-through: after a successful miss, a read within the expiration
      (or at any time when it is not positive) is served from the cache,
      whatever the inner client would now answer. */
  lemma CategoriesServedFromCache(p: Proxy, inner: Inner, inner2: Inner, now: int, later: int)
    requires Fresh(p.categories, now).None? && Categories(p, inner, now).1.Ok?
    requires now <= later && (Expiration(p) > 0 ==> later <= now + Expiration(p))
    ensures var (p1, v, _) := Categories(p, inner, now);
            Categories(p1, inner2, later) == (p1, v, [])
  {
  }

  /** A failed read caches nothing: the next read asks the inner client again. */
  lemma FailedReadNotCached(p: Proxy, inner: Inner, inner2: Inner, now: int)
    requires Categories(p, inner, now).1.Err?
    ensures var p1 := Categories(p, inner, now).0;
            p1 == p && Categories(p1, inner2, now).2 == [AccountingService.Categories]
  {
  }

  /** After creating a category the next categories read goes to the inner
      client, while cached accounts are still served. */
  lemma CreateCategoryInvalidates(p: Proxy, inner: Inner, category: AccountingService.ToshlCategory, now: int)
    ensures var p1 := CreateCategory(p, inner, category).0;
            && Categories(p1, inner, now).2 == [AccountingService.Categories]
            && (Fresh(p.accounts, now).Some? ==> Accounts(p1, inner, now).2 == [])
  {
  }
}
