/** Model of internal/sync/accounting.go: registering one parsed bank
    transaction in the accounting service.  The user-config store and the
    accounting repository are collaborators: their answers are inputs
    (`Env`), and the repository calls made are returned as a trace. */
module Accounting {
  import opened Wrappers
  import Text
  import Currency
  import BankTypes
  import AccountNames

  /** `accountingrepotypes.Account`. */
  datatype Account = Account(id: string, name: string)

  /** `accountingrepotypes.Category`. */
  datatype Category = Category(id: string, name: string, catType: string)

  /** `userconfigrepo.UserConfig`: per-bank maps from account number to account number. */
  datatype UserConfig = UserConfig(email: string, smsDeliveryNumber: string, token: string,
                                   mapping: map<string, map<string, string>>)

  /** `accountingrepotypes.CreateEntryInput`; the date is an instant, so moving
      it to the configured time zone does not change it. */
  datatype EntryInput = EntryInput(date: int, currency: Currency.Amount, description: string,
                                   accountId: string, categoryId: string)

  /** The accounting-repository calls, in the order they are made. */
  datatype RepoCall =
    | GetAccounts(token: string)
    | GetCategories(token: string)
    | CreateCategory(token: string, catType: string, name: string)
    | CreateEntry(token: string, entry: EntryInput)

  /** What the collaborators answer.  `lookup` is `GetUserConfigFromEmail`;
      `ctxErr(i)` is what `ctx.Err()` reports after the `i`-th lookup;
      `overrideOrder` is the order in which Go happens to iterate the
      user's override map. */
  datatype Env = Env(
    lookup: string -> Result<UserConfig>,
    ctxErr: nat -> Option<string>,
    accounts: Result<seq<Account>>,
    categories: Result<seq<Category>>,
    created: Result<Category>,
    entryError: Option<string>,
    overrideOrder: seq<string>)

  const NotFound: string := "could not find user config from candidates"
  const Unassigned: string := "transaction does not have an assigned account"
  const CategoryPrefix: string := "PENDING_"

  // ---------------------------------------------------------------------
  // getAccountsMapping

  /** The overrides, applied in `order`: `m[k] = m[v]` for `k -> v`, but only
      when `v` is mapped at that moment. */
  function ApplyOverrides(m: map<string, Account>, user: map<string, string>, order: seq<string>): map<string, Account>
    decreases |order|
  {
    if |order| == 0 then m
    else
      var k := order[0];
      var m' := if k in user && user[k] in m then m[k := m[user[k]]] else m;
      ApplyOverrides(m', user, order[1..])
  }

  /** `order` enumerates the keys of `user`, each exactly once. */
  ghost predicate Enumerates(order: seq<string>, user: map<string, string>)
  {
    && (forall k :: k in user <==> k in order)
    && (forall i, j :: 0 <= i < j < |order| ==> order[i] != order[j])
  }

  /** A key that is not overridden keeps whatever the accounts gave it. */
  lemma {:induction false} OverridesKeepOthers(m: map<string, Account>, user: map<string, string>, order: seq<string>, t: string)
    requires t !in user || t !in order
    ensures t in ApplyOverrides(m, user, order) <==> t in m
    ensures t in m ==> ApplyOverrides(m, user, order)[t] == m[t]
    decreases |order|
  {
    if |order| > 0 {
      var k := order[0];
      var m' := if k in user && user[k] in m then m[k := m[user[k]]] else m;
      assert t != k || t !in user;
      assert t in order[1..] ==> t in order;
      OverridesKeepOthers(m', user, order[1..], t);
    }
  }

  /** An override whose target is mapped by the accounts, and is not itself
      overridden, takes the target's account. */
  lemma {:induction false} OverrideResolved(m: map<string, Account>, user: map<string, string>, order: seq<string>, k: string)
    requires k in user && k in order && user[k] !in user && user[k] in m
    requires forall i, j :: 0 <= i < j < |order| ==> order[i] != order[j]
    ensures k in ApplyOverrides(m, user, order)
    ensures ApplyOverrides(m, user, order)[k] == m[user[k]]
    decreases |order|
  {
    var v := user[k];
    var h := order[0];
    var m' := if h in user && user[h] in m then m[h := m[user[h]]] else m;
    if h == k {
      assert k !in order[1..] by {
        forall i | 0 <= i < |order[1..]| ensures order[1..][i] != k {
          assert order[1..][i] == order[i + 1];
        }
      }
      OverridesKeepOthers(m', user, order[1..], k);
    } else {
      assert v in m' && m'[v] == m[v];
      assert k in order[1..] by {
        var i :| 0 <= i < |order| && order[i] == k;
        assert order[1..][i - 1] == k;
      }
      OverrideResolved(m', user, order[1..], k);
    }
  }

  /** An override whose target is unmapped (and not itself overridden) leaves
      its key as the accounts gave it. */
  lemma {:induction false} OverrideIgnored(m: map<string, Account>, user: map<string, string>, order: seq<string>, k: string)
    requires k in user && user[k] !in user && user[k] !in m
    requires forall i, j :: 0 <= i < j < |order| ==> order[i] != order[j]
    ensures k in ApplyOverrides(m, user, order) <==> k in m
    ensures k in m ==> ApplyOverrides(m, user, order)[k] == m[k]
    decreases |order|
  {
    if |order| > 0 {
      var h := order[0];
      var m' := if h in user && user[h] in m then m[h := m[user[h]]] else m;
      assert user[k] !in m';
      assert forall i, j :: 0 <= i < j < |order[1..]| ==> order[1..][i] != order[1..][j] by {
        forall i, j | 0 <= i < j < |order[1..]| ensures order[1..][i] != order[1..][j] {
          assert order[1..][i] == order[i + 1] && order[1..][j] == order[j + 1];
        }
      }
      OverrideIgnored(m', user, order[1..], k);
    }
  }

  /** The accounts as (name, account) pairs, in list order. */
  function Named(accounts: seq<Account>): (entries: seq<(string, Account)>)
    ensures |entries| == |accounts|
    ensures forall i :: 0 <= i < |accounts| ==> entries[i] == (accounts[i].name, accounts[i])
  {
    seq(|accounts|, i requires 0 <= i < |accounts| => (accounts[i].name, accounts[i]))
  }

  /** `getAccountsMapping`: each account-number token of an account's name maps
      to the account (the later account wins), then the user's overrides for
      `bank` are applied in `order`. */
  function GetAccountsMapping(accounts: seq<Account>, cfg: UserConfig, bank: string, order: seq<string>): map<string, Account>
  {
    var base := AccountNames.TokenMap(Named(accounts));
    if bank in cfg.mapping then ApplyOverrides(base, cfg.mapping[bank], order) else base
  }

  /** Without overrides for the bank, the mapping holds exactly the tokens of
      the account names, each mapped to the last account whose name yields it. */
  lemma MappingWithoutOverrides(accounts: seq<Account>, cfg: UserConfig, bank: string, order: seq<string>)
    requires bank !in cfg.mapping
    ensures var m := GetAccountsMapping(accounts, cfg, bank, order);
            forall t :: t in m <==> exists i :: 0 <= i < |accounts| && t in AccountNames.Tokens(accounts[i].name)
    ensures var m := GetAccountsMapping(accounts, cfg, bank, order);
            forall t :: t in m ==> exists i :: AccountNames.LastOwner(AccountNames.Tokenise(Named(accounts)), t, i) && m[t] == accounts[i]
  {
    var entries := Named(accounts);
    AccountNames.TokenMapSpec(entries);
    var m := GetAccountsMapping(accounts, cfg, bank, order);
    forall t ensures t in m <==> exists i :: 0 <= i < |accounts| && t in AccountNames.Tokens(accounts[i].name)
    {
      if t in m {
        var i :| 0 <= i < |entries| && t in AccountNames.Tokens(entries[i].0);
        assert t in AccountNames.Tokens(accounts[i].name);
      }
      if exists i :: 0 <= i < |accounts| && t in AccountNames.Tokens(accounts[i].name) {
        var i :| 0 <= i < |accounts| && t in AccountNames.Tokens(accounts[i].name);
        assert t in AccountNames.Tokens(entries[i].0);
      }
    }
  }

  /** With overrides, whichever order Go iterates them in: keys without an
      override keep their accounts, an override to a mapped (non-overridden)
      number takes that number's account, and one to an unmapped number is
      ignored. */
  lemma MappingWithOverrides(accounts: seq<Account>, cfg: UserConfig, bank: string, order: seq<string>)
    requires bank in cfg.mapping && Enumerates(order, cfg.mapping[bank])
    ensures var base := AccountNames.TokenMap(Named(accounts));
            var user := cfg.mapping[bank];
            var m := GetAccountsMapping(accounts, cfg, bank, order);
            && (forall t :: t !in user ==> (t in m <==> t in base) && (t in base ==> m[t] == base[t]))
            && (forall k :: k in user && user[k] !in user && user[k] in base ==> k in m && m[k] == base[user[k]])
            && (forall k :: k in user && user[k] !in user && user[k] !in base ==>
                  (k in m <==> k in base) && (k in base ==> m[k] == base[k]))
  {
    var base := AccountNames.TokenMap(Named(accounts));
    var user := cfg.mapping[bank];
    forall t | t !in user
      ensures var m := ApplyOverrides(base, user, order); (t in m <==> t in base) && (t in base ==> m[t] == base[t])
    {
      OverridesKeepOthers(base, user, order, t);
    }
    forall k | k in user && user[k] !in user && user[k] in base
      ensures var m := ApplyOverrides(base, user, order); k in m && m[k] == base[user[k]]
    {
      OverrideResolved(base, user, order, k);
    }
    forall k | k in user && user[k] !in user && user[k] !in base
      ensures var m := ApplyOverrides(base, user, order); (k in m <==> k in base) && (k in base ==> m[k] == base[k])
    {
      OverrideIgnored(base, user, order, k);
    }
  }

  // ---------------------------------------------------------------------
  // getUserConfigFromCandidates

  /** The lookup of candidate `i` failed while the context was already done. */
  predicate CancelledAt(env: Env, candidates: seq<string>, i: int)
  {
    0 <= i < |candidates| && env.lookup(candidates[i]).Err? && env.ctxErr(i).Some?
  }

  /** Candidate `i` resolves and no later candidate does. */
  predicate LastResolving(env: Env, candidates: seq<string>, i: int)
  {
    && 0 <= i < |candidates|
    && env.lookup(candidates[i]).Ok?
    && forall j :: i < j < |candidates| ==> env.lookup(candidates[j]).Err?
  }

  /** The loop of `getUserConfigFromCandidates` from candidate `k` on, with
      `found` the configuration kept so far; the second component counts the
      lookups made. */
  function ResolveFrom(env: Env, candidates: seq<string>, k: nat, found: Option<UserConfig>): (r: (Result<UserConfig>, nat))
    requires k <= |candidates|
    ensures k <= r.1 <= |candidates|
    decreases |candidates| - k
  {
    if k == |candidates| then
      (if found.None? then Err(NotFound) else Ok(found.value), k)
    else
      var cfg := env.lookup(candidates[k]);
      if cfg.Err? && env.ctxErr(k).Some? then (Err(env.ctxErr(k).value), k + 1)
      else ResolveFrom(env, candidates, k + 1, if cfg.Ok? then Some(cfg.value) else found)
  }

  /** `getUserConfigFromCandidates`: the configuration and the number of lookups made. */
  function GetUserConfigFromCandidates(env: Env, candidates: seq<string>): (r: (Result<UserConfig>, nat))
    ensures r.1 <= |candidates|
  {
    ResolveFrom(env, candidates, 0, None)
  }

  /** No lookup from `k` on fails with the context done. */
  predicate NoCancelFrom(env: Env, candidates: seq<string>, k: nat)
  {
    forall i :: k <= i < |candidates| ==> !CancelledAt(env, candidates, i)
  }

  /** The loop from candidate `k` on stops at the first cancelled lookup. */
  lemma {:induction false} ResolveStopsAtCancel(env: Env, candidates: seq<string>, k: nat, found: Option<UserConfig>, i: nat)
    requires k <= i && CancelledAt(env, candidates, i)
    requires forall j :: k <= j < i ==> !CancelledAt(env, candidates, j)
    ensures ResolveFrom(env, candidates, k, found) == (Err(env.ctxErr(i).value), i + 1)
    decreases |candidates| - k
  {
    if k < i {
      assert !CancelledAt(env, candidates, k);
      var cfg := env.lookup(candidates[k]);
      ResolveStopsAtCancel(env, candidates, k + 1, if cfg.Ok? then Some(cfg.value) else found, i);
    }
  }

  /** Without a cancelled lookup the loop from `k` looks every candidate up;
      when none of them resolves it keeps what it had. */
  lemma {:induction false} ResolveWithoutCancel(env: Env, candidates: seq<string>, k: nat, found: Option<UserConfig>)
    requires k <= |candidates| && NoCancelFrom(env, candidates, k)
    ensures ResolveFrom(env, candidates, k, found).1 == |candidates|
    ensures (forall i :: k <= i < |candidates| ==> env.lookup(candidates[i]).Err?) ==>
              ResolveFrom(env, candidates, k, found).0 == (if found.None? then Err(NotFound) else Ok(found.value))
    decreases |candidates| - k
  {
    if k < |candidates| {
      var cfg := env.lookup(candidates[k]);
      assert !CancelledAt(env, candidates, k);
      assert NoCancelFrom(env, candidates, k + 1);
      ResolveWithoutCancel(env, candidates, k + 1, if cfg.Ok? then Some(cfg.value) else found);
    }
  }

  /** Without a cancelled lookup the last resolving candidate wins. */
  lemma {:induction false} ResolveLastWins(env: Env, candidates: seq<string>, k: nat, found: Option<UserConfig>, i: nat)
    requires k <= i && LastResolving(env, candidates, i) && NoCancelFrom(env, candidates, k)
    ensures ResolveFrom(env, candidates, k, found).0 == Ok(env.lookup(candidates[i]).value)
    decreases |candidates| - k
  {
    var cfg := env.lookup(candidates[k]);
    var next := if cfg.Ok? then Some(cfg.value) else found;
    assert !CancelledAt(env, candidates, k);
    assert NoCancelFrom(env, candidates, k + 1);
    if k < i {
      ResolveLastWins(env, candidates, k + 1, next, i);
    } else {
      ResolveWithoutCancel(env, candidates, k + 1, next);
    }
  }

  /** `getUserConfigFromCandidates` returns the context's error at the first
      lookup that fails with the context done; otherwise it has looked every
      candidate up, keeps the last resolving one (no early exit on success),
      and reports that none was found when none resolves. */
  lemma CandidatesResolution(env: Env, candidates: seq<string>)
    ensures var r := GetUserConfigFromCandidates(env, candidates);
            forall i :: CancelledAt(env, candidates, i) && (forall j :: 0 <= j < i ==> !CancelledAt(env, candidates, j)) ==>
              r == (Err(env.ctxErr(i).value), i + 1)
    ensures var r := GetUserConfigFromCandidates(env, candidates);
            (forall i :: 0 <= i < |candidates| ==> !CancelledAt(env, candidates, i)) ==>
              && r.1 == |candidates|
              && ((forall i :: 0 <= i < |candidates| ==> env.lookup(candidates[i]).Err?) ==> r.0 == Err(NotFound))
              && (forall i :: LastResolving(env, candidates, i) ==> r.0 == Ok(env.lookup(candidates[i]).value))
  {
    forall i | CancelledAt(env, candidates, i) && (forall j :: 0 <= j < i ==> !CancelledAt(env, candidates, j)) {
      ResolveStopsAtCancel(env, candidates, 0, None, i);
    }
    if NoCancelFrom(env, candidates, 0) {
      ResolveWithoutCancel(env, candidates, 0, None);
      forall i | LastResolving(env, candidates, i) {
        ResolveLastWins(env, candidates, 0, None, i);
      }
    }
  }

  /** A resolved configuration is one of the candidates' own. */
  lemma {:induction false} ResolvedIsACandidates(env: Env, candidates: seq<string>, k: nat, found: Option<UserConfig>)
    requires k <= |candidates|
    requires found.Some? ==> exists i :: 0 <= i < |candidates| && env.lookup(candidates[i]) == Ok(found.value)
    ensures ResolveFrom(env, candidates, k, found).0.Ok? ==>
              exists i :: 0 <= i < |candidates| && env.lookup(candidates[i]) == ResolveFrom(env, candidates, k, found).0
    decreases |candidates| - k
  {
    if k < |candidates| {
      var cfg := env.lookup(candidates[k]);
      ResolvedIsACandidates(env, candidates, k + 1, if cfg.Ok? then Some(cfg.value) else found);
    }
  }

  // ---------------------------------------------------------------------
  // createCategoryIfAbsent

  /** The index of the first category called `name`, if any. */
  function FirstNamed(cs: seq<Category>, name: string): (r: Option<nat>)
    ensures r.None? <==> forall i :: 0 <= i < |cs| ==> cs[i].name != name
    ensures r.Some? ==> r.value < |cs| && cs[r.value].name == name
                        && forall j :: 0 <= j < r.value ==> cs[j].name != name
    decreases |cs|
  {
    if |cs| == 0 then None
    else if cs[0].name == name then Some(0)
    else match FirstNamed(cs[1..], name)
         case None => None
         case Some(i) => Some(i + 1)
  }

  /** `createCategoryIfAbsent`: the id of the first category with the name,
      whatever its type (a mismatch is only logged); otherwise a new category,
      unless in dry-run, where the id is empty and nothing is created. */
  function CreateCategoryIfAbsent(env: Env, dryRun: bool, token: string, catType: string, name: string): (r: (Result<string>, seq<RepoCall>))
    ensures env.categories.Err? ==> r == (Err(env.categories.error), [GetCategories(token)])
    ensures env.categories.Ok? ==>
              forall i :: 0 <= i < |env.categories.value| && env.categories.value[i].name == name
                          && (forall j :: 0 <= j < i ==> env.categories.value[j].name != name) ==>
                r == (Ok(env.categories.value[i].id), [GetCategories(token)])
    ensures env.categories.Ok? && (forall i :: 0 <= i < |env.categories.value| ==> env.categories.value[i].name != name) ==>
              if dryRun then r == (Ok(""), [GetCategories(token)])
              else r.1 == [GetCategories(token), CreateCategory(token, catType, name)]
                   && (env.created.Ok? ==> r.0 == Ok(env.created.value.id))
                   && (env.created.Err? ==> r.0.Err?)
  {
    match env.categories
    case Err(e) => (Err(e), [GetCategories(token)])
    case Ok(cs) =>
      match FirstNamed(cs, name)
      case Some(i) => (Ok(cs[i].id), [GetCategories(token)])
      case None =>
        if dryRun then (Ok(""), [GetCategories(token)])
        else
          var calls := [GetCategories(token), CreateCategory(token, catType, name)];
          match env.created
          case Err(e) => (Err(e), calls)
          case Ok(c) => (Ok(c.id), calls)
  }

  // ---------------------------------------------------------------------
  // registerSingleTrxIntoAccounting

  /** The category a transaction of kind `kind` is filed under: "PENDING_" and
      the kind's name in capitals. */
  function CategoryName(kind: BankTypes.TrxType): (name: string)
    ensures |name| == |CategoryPrefix| + |BankTypes.String(kind)| && name[..|CategoryPrefix|] == CategoryPrefix
    ensures forall i :: 0 <= i < |BankTypes.String(kind)| ==>
              name[|CategoryPrefix| + i] == Text.UpperChar(BankTypes.String(kind)[i])
  {
    CategoryPrefix + Text.ToUpper(BankTypes.String(kind))
  }

  /** The signed amount of the entry: expenses are negative. */
  function SignedAmount(trx: BankTypes.TrxInfo): (a: int)
    ensures trx.kind == BankTypes.Expense ==> a == -trx.value.hundredths
    ensures trx.kind != BankTypes.Expense ==> a == trx.value.hundredths
  {
    if trx.kind == BankTypes.Expense then -trx.value.hundredths else trx.value.hundredths
  }

  /** The entry for a transaction once its account and category are known. */
  function Entry(trx: BankTypes.TrxInfo, accountId: string, categoryId: string): EntryInput
  {
    EntryInput(trx.date, Currency.Amount(Currency.COP, SignedAmount(trx)),
               "** " + trx.action + " de " + trx.description, accountId, categoryId)
  }

  /** The outcome of a registration that did not panic: the error returned (None
      for nil) and the repository calls made. */
  datatype Registration = Registration(err: Option<string>, calls: seq<RepoCall>)

  /** Some call of the trace creates an entry. */
  predicate CreatesEntry(calls: seq<RepoCall>)
  {
    exists i :: 0 <= i < |calls| && calls[i].CreateEntry?
  }

  /** Some call of the trace creates a category. */
  predicate CreatesCategory(calls: seq<RepoCall>)
  {
    exists i :: 0 <= i < |calls| && calls[i].CreateCategory?
  }

  /** `registerSingleTrxIntoAccounting`.  The recipients are read from the
      origin message first, so a transaction without one panics; then the
      user's configuration, the accounts, the category, the account mapping,
      and finally the entry, unless in dry-run. */
  function RegisterSingleTrxIntoAccounting(env: Env, dryRun: bool, trx: BankTypes.TrxInfo): (r: Exec<Registration>)
    ensures r.Panicked? <==> trx.originMessage.None?
    ensures r.Done? && dryRun ==> !CreatesEntry(r.value.calls) && !CreatesCategory(r.value.calls)
    ensures r.Done? && !dryRun && r.value.err.None? ==> CreatesEntry(r.value.calls)
  {
    if trx.originMessage.None? then Panicked(NilDereference)
    else
      var cfgResult := GetUserConfigFromCandidates(env, trx.originMessage.value.to).0;
      if cfgResult.Err? then Done(Registration(Some(cfgResult.error), []))
      else
        var cfg := cfgResult.value;
        var calls := [GetAccounts(cfg.token)];
        if env.accounts.Err? then Done(Registration(Some(env.accounts.error), calls))
        else
          var (categoryId, catCalls) := CreateCategoryIfAbsent(env, dryRun, cfg.token, BankTypes.String(trx.kind), CategoryName(trx.kind));
          if categoryId.Err? then Done(Registration(Some(categoryId.error), calls + catCalls))
          else
            var mapping := GetAccountsMapping(env.accounts.value, cfg, trx.bank, env.overrideOrder);
            if trx.account !in mapping then Done(Registration(Some(Unassigned), calls + catCalls))
            else if dryRun then Done(Registration(None, calls + catCalls))
            else
              var all := calls + catCalls + [CreateEntry(cfg.token, Entry(trx, mapping[trx.account].id, categoryId.value))];
              assert all[|all| - 1].CreateEntry?;
              Done(Registration(env.entryError, all))
  }

  /** The entry a registration creates: it is the last call and the only
      entry created, for the account the mapping assigns to the transaction's
      account number and the category "PENDING_<KIND>"; its amount is the
      transaction's, negated for an expense, in COP, described as
      "** <action> de <description>"; the registration returns the entry
      call's own error. */
  lemma RegisteredEntry(env: Env, dryRun: bool, trx: BankTypes.TrxInfo)
    requires RegisterSingleTrxIntoAccounting(env, dryRun, trx).Done?
    requires CreatesEntry(RegisterSingleTrxIntoAccounting(env, dryRun, trx).value.calls)
    ensures var reg := RegisterSingleTrxIntoAccounting(env, dryRun, trx).value;
            var cfg := GetUserConfigFromCandidates(env, trx.originMessage.value.to).0;
            && !dryRun && cfg.Ok? && env.accounts.Ok?
            && |reg.calls| >= 2 && reg.calls[0] == GetAccounts(cfg.value.token)
            && !CreatesEntry(reg.calls[..|reg.calls| - 1])
            && reg.err == env.entryError
            && var m := GetAccountsMapping(env.accounts.value, cfg.value, trx.bank, env.overrideOrder);
               && trx.account in m
               && var last := reg.calls[|reg.calls| - 1];
                  && last.CreateEntry? && last.token == cfg.value.token
                  && last.entry.accountId == m[trx.account].id
                  && last.entry.date == trx.date
                  && last.entry.currency.code == Currency.COP
                  && (trx.kind == BankTypes.Expense ==> last.entry.currency.hundredths == -trx.value.hundredths)
                  && (trx.kind != BankTypes.Expense ==> last.entry.currency.hundredths == trx.value.hundredths)
                  && last.entry.description == "** " + trx.action + " de " + trx.description
                  && CreateCategoryIfAbsent(env, dryRun, cfg.value.token, BankTypes.String(trx.kind), CategoryName(trx.kind)).0
                     == Ok(last.entry.categoryId)
  {
    var cfg := GetUserConfigFromCandidates(env, trx.originMessage.value.to).0.value;
    var cat := CreateCategoryIfAbsent(env, dryRun, cfg.token, BankTypes.String(trx.kind), CategoryName(trx.kind));
    RegistrationShape(env, dryRun, trx);
    var m := GetAccountsMapping(env.accounts.value, cfg, trx.bank, env.overrideOrder);
    var front := [GetAccounts(cfg.token)] + cat.1;
    var reg := RegisterSingleTrxIntoAccounting(env, dryRun, trx).value;
    assert reg.calls == front + [CreateEntry(cfg.token, Entry(trx, m[trx.account].id, cat.0.value))];
    assert reg.calls[..|reg.calls| - 1] == front;
    assert !CreatesEntry(front) by { CategoryCallsCreateNoEntry(env, dryRun, cfg.token, BankTypes.String(trx.kind), CategoryName(trx.kind)); }
  }

  /** Settling the category never creates an entry. */
  lemma CategoryCallsCreateNoEntry(env: Env, dryRun: bool, token: string, catType: string, name: string)
    ensures !CreatesEntry(CreateCategoryIfAbsent(env, dryRun, token, catType, name).1)
    ensures !CreatesEntry([GetAccounts(token)] + CreateCategoryIfAbsent(env, dryRun, token, catType, name).1)
  {
    var calls := [GetAccounts(token)] + CreateCategoryIfAbsent(env, dryRun, token, catType, name).1;
    assert forall i :: 0 <= i < |calls| ==> !calls[i].CreateEntry?;
  }

  /** A registration that creates an entry went through every step: the
      configuration, the accounts, the category and the mapping all succeeded,
      it was not a dry-run, and the entry call ends the trace. */
  lemma RegistrationShape(env: Env, dryRun: bool, trx: BankTypes.TrxInfo)
    requires RegisterSingleTrxIntoAccounting(env, dryRun, trx).Done?
    requires CreatesEntry(RegisterSingleTrxIntoAccounting(env, dryRun, trx).value.calls)
    ensures var cfg := GetUserConfigFromCandidates(env, trx.originMessage.value.to).0;
            && !dryRun && cfg.Ok? && env.accounts.Ok?
            && var cat := CreateCategoryIfAbsent(env, dryRun, cfg.value.token, BankTypes.String(trx.kind), CategoryName(trx.kind));
               && cat.0.Ok?
               && var m := GetAccountsMapping(env.accounts.value, cfg.value, trx.bank, env.overrideOrder);
                  && trx.account in m
                  && RegisterSingleTrxIntoAccounting(env, dryRun, trx).value
                     == Registration(env.entryError, [GetAccounts(cfg.value.token)] + cat.1
                                                     + [CreateEntry(cfg.value.token, Entry(trx, m[trx.account].id, cat.0.value))])
  {
    var cfg := GetUserConfigFromCandidates(env, trx.originMessage.value.to).0;
    assert cfg.Ok?;
    var token := cfg.value.token;
    assert env.accounts.Ok?;
    var cat := CreateCategoryIfAbsent(env, dryRun, token, BankTypes.String(trx.kind), CategoryName(trx.kind));
    CategoryCallsCreateNoEntry(env, dryRun, token, BankTypes.String(trx.kind), CategoryName(trx.kind));
    assert cat.0.Ok?;
    var m := GetAccountsMapping(env.accounts.value, cfg.value, trx.bank, env.overrideOrder);
    assert trx.account in m;
    assert !dryRun;
  }

  /** A transaction whose account number the mapping does not know is not
      registered: once the category is settled the registration returns the
      unassigned-account error and creates no entry, dry-run or not. */
  lemma UnassignedAccountCreatesNothing(env: Env, dryRun: bool, trx: BankTypes.TrxInfo)
    requires trx.originMessage.Some?
    requires var cfg := GetUserConfigFromCandidates(env, trx.originMessage.value.to).0;
             && cfg.Ok? && env.accounts.Ok?
             && CreateCategoryIfAbsent(env, dryRun, cfg.value.token, BankTypes.String(trx.kind), CategoryName(trx.kind)).0.Ok?
             && trx.account !in GetAccountsMapping(env.accounts.value, cfg.value, trx.bank, env.overrideOrder)
    ensures var r := RegisterSingleTrxIntoAccounting(env, dryRun, trx);
            r.Done? && r.value.err == Some(Unassigned) && !CreatesEntry(r.value.calls)
  {
    var cfg := GetUserConfigFromCandidates(env, trx.originMessage.value.to).0.value;
    var (categoryId, catCalls) := CreateCategoryIfAbsent(env, dryRun, cfg.token, BankTypes.String(trx.kind), CategoryName(trx.kind));
    assert !CreatesEntry(catCalls);
    assert !CreatesEntry([GetAccounts(cfg.token)] + catCalls);
  }
}
