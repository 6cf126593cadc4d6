# toshl-email-autosync, modelled in Dafny

toshl-email-autosync reads bank notification e-mails, turns each one into a
transaction, records it in the user's Toshl accounting, archives the
processed mails and sends SMS summaries.  This project models the sequential
decision logic between its I/O adapters and proves properties of it.  The
modelled logic covers:

- **Bancolombia notification parser**, in both generations. It selects the first
  matching rule, extracts the named capture groups and checks the required
  fields. It also reads amounts whose thousands and decimal separators are
  ambiguous.
- **Round-robin bucketing** (`Split`, `divideSlice`), the worker plan of the mail
  repository, and the bounded FIFO queue.
- **Accounting registration.** It turns account names into a mapping and
  resolves the user from recipient candidates. It looks up or creates the
  `PENDING_<KIND>` category, signs the amount and gates writes behind dry-run.
  The Toshl caches and the caching proxy are part of it.
- **Last-processed-date watermark.** This covers its fallback chains, the
  24-hour shift, the earliest-date rule and the dry-run gates.
- **Archival and notifications.** This covers mailbox checks, message-id
  collection, per-user SMS composition, notification counters and the
  notification store.
- **Small enums and market helpers**, and the JSON text cleaning of the
  fund service.

Modelling conventions:

- Amounts are integers in hundredths.
- Instants are integer seconds, except in `ToshlProxy`, whose cache clock and expirations are integer nanoseconds, as Go's `time.Duration` counts. Times of day are minutes.
- Go's regular-expression engine is an uninterpreted function
  `engine(regexp, text)`. It stands for `FindStringSubmatch`, and a match is
  the case where it answers Some.
- The bank rules key the engine by a pattern name. `Source` keeps each name's
  Go pattern text.
- The two shapes the code recognises by hand are written out as concrete
  recognisers: the amount shape and the account-number prefix.
- Collaborators are handled in two ways:
  - IMAP, DynamoDB, Toshl and Twilio answers enter as recorded values.
  - The calls made on them come back as a trace, so "no call happened" and
    "nothing was written under dry-run" are statements about that trace.
- A Go panic is the `Panicked` outcome of `Wrappers.Exec`.
- Where Go iterates over a map, the iteration order is a parameter, or the
  result is stated independently of order.

## Model

| member | source | states |
|---|---|---|
| Bancolombia.ComesFrom | internal/bank/bancolombia/bancolombia.go:25-36 | true exactly when some sender address equals, case-sensitively, one of the two Bancolombia addresses |
| Bancolombia.Rules | internal/bank/bancolombia/bancolombia.go:45-106 | ten rules in source order; rules 6 to 9 assign Income and every other rule Expense; every rule names all four required groups |
| Bancolombia.FilterMessage | internal/bank/bancolombia/bancolombia.go:38-43 | keeps a message exactly when its body matches at least one rule; the sender is not consulted |
| Bancolombia.ParseWith | internal/bank/bancolombia/bancolombia.go:122-150 | once a rule is selected: a missing required group is the missing-fields error; otherwise success exactly when the amount parses, and the transaction carries the message's date and id, the bank name, the type/place/account groups, the parsed amount and the rule's kind |
| Bancolombia.ExtractTransactionInfoFromMessage | internal/bank/bancolombia/bancolombia.go:108-151 | no matching rule gives the no-match error (with the package's error prefix); otherwise the result is what the first matching rule, in list order, reads |
| Bancolombia.ParsedMessagesPassTheFilter | internal/bank/bancolombia/bancolombia.go:38-150 | every parsed transaction comes from a message the filter keeps, is dated and identified by that message, is in COP, has no origin message, and is Income exactly when the first matching rule is one of rules 6 to 9 |
| Bancolombia.FirstMatchIsUnique | internal/util/regexp/regexp.go:10-18 | the first matching rule is unique, so the selected rule is well defined |
| Bancolombia.ExtractWithOrigin | internal/bank/banktypes/types.go:39-48 | the corrected extractor: succeeds exactly when the as-written one does, with the same error, and a success is the same transaction with the message recorded as its origin |
| BancolombiaFixture.PurchaseFields | internal/bank/bancolombia/bancolombia_test.go:44-54 | the purchase notification's groups, as the third rule captures them, give type "Compra", value "3.150,00", place "EXITO EXPRESS AVE 19 19:02" and account "5021" |
| BancolombiaFixture.PurchaseCollect | internal/util/regexp/regexp.go:38-48 | the third rule's fields for the purchase are the loop over its five groups |
| BancolombiaFixture.PurchaseNotification | internal/bank/bancolombia/bancolombia_test.go:44-54 | when the first two rules do not match and the third captures the fixture's groups, the purchase parses to an Expense at "EXITO EXPRESS AVE 19 19:02", account 5021, 3150.00 COP |
| BancolombiaCurrency.LeadingRun | internal/bank/bancolombia/bancolombia.go:158 | the longest prefix made of digits, "." and ",": it is a prefix, all amount characters, and the next character is not one |
| BancolombiaCurrency.StripSeparatorsIsReplaceAll | internal/bank/bancolombia/bancolombia.go:177-178 | removing separators is the two `strings.ReplaceAll` calls of the source |
| BancolombiaCurrency.GetValueFromTextWithDecimal | internal/bank/bancolombia/bancolombia.go:161-182 | succeeds exactly when the text has the shape "integer part over [0-9.,], one separator, exactly two digits", giving digit strings with a two-digit decimal part |
| BancolombiaCurrency.GetValueFromTextWithoutDecimal | internal/bank/bancolombia/bancolombia.go:184-205 | succeeds exactly when the text starts with a digit, "." or ","; the decimal part is always "0" |
| BancolombiaCurrency.GetValueFromText | internal/bank/bancolombia/bancolombia.go:207-224 | an error exactly when the text does not start with a digit or separator; always COP and non-negative; the decimal shape reads as integer digits plus two-digit cents, anything else as the separator-stripped leading run, whole |
| BancolombiaCurrency.DecimalRoundTrip | internal/bank/bancolombia/bancolombia.go:207-224 | an amount written with two decimals and either separator convention ("3.150,00" or "3,150.00") parses back to itself |
| BancolombiaCurrency.WholeRoundTrip | internal/bank/bancolombia/bancolombia.go:184-224 | a whole amount written with thousands separators parses back to itself with zero cents |
| BancolombiaCurrency.GroupFacts | internal/bank/bancolombia/bancolombia.go:177-178 | digits grouped by threes with a separator strip back to the same digits and keep the last three |
| BancolombiaCurrency.StripSeparatorsAppend | internal/bank/bancolombia/bancolombia.go:177-178 | removing separators distributes over concatenation |
| BancolombiaCurrency.ExampleDotThousands | internal/bank/bancolombia/bancolombia_test.go:44-54 | "3.150,00" is 3150.00 COP |
| BancolombiaCurrency.ExampleWithdrawal | internal/bank/bancolombia/bancolombia_test.go:55-65 | "70.000,00" is 70000.00 COP |
| BancolombiaCurrency.ExampleCommaThousands | internal/bank/bancolombia/bancolombia_test.go:88-98 | "112,400.00" is 112400.00 COP |
| BancolombiaCurrency.ExampleShortDecimal | internal/bank/bancolombia/bancolombia.go:207-224 | "1.50" has the decimal shape and reads as 1.50, not 150 |
| BancolombiaCurrency.ExampleRejected | internal/bank/bancolombia/bancolombia.go:207-224 | "$5" and the empty text are errors |
| BancolombiaLegacy.HasSender | internal/bank/bancolombia/bank.go:22-30 | some From address is exactly the one sender this generation accepts |
| BancolombiaLegacy.FilterMessage | internal/bank/bancolombia/bank.go:17-38 | keeps a message exactly when it and its envelope are present, the bank's address is among the senders, and the body matches one of the four rules; a nil message or envelope is rejected |
| BancolombiaLegacy.GetValueFromText | internal/bank/bancolombia/bank.go:122-139 | the same decimal-first, whole-number-fallback reading, in COP, stored as the rate |
| BancolombiaLegacy.Rules | internal/bank/bancolombia/bank.go:40-45 | the four rules in source order |
| BancolombiaLegacy.Parse | internal/bank/bancolombia/bank.go:55-74 | missing required groups give the missing-fields error; an amount error is returned as is; once both succeed, a nil message or envelope panics and otherwise the transaction carries the sequence number, the envelope date, kind Expense, the captured type, place and account, and the parsed amount |
| BancolombiaLegacy.ExtractTransactionInfoFromMessage | internal/bank/bancolombia/bank.go:47-74 | no matching rule gives the no-match error; otherwise the result is what `Parse` makes of the first matching rule |
| BancolombiaLegacy.SelectionIsTheFirstMatch | internal/sync/common/common.go:11-19 | the rule the older selector returns is the first matching one |
| BancolombiaLegacy.ParsedTransactionsAreExpenses | internal/bank/bancolombia/bank.go:66-73 | every parsed transaction keeps the zero kind Expense, is in COP with a rate, and carries the message's sequence number and envelope date |
| BancolombiaLegacyFixture.WithdrawalFields | internal/bank/bancolombia/bank_test.go:56-66 | the withdrawal's groups give type "Retiro", value "70.000,00", place "CALLE100-2" and account "5021" |
| BancolombiaLegacyFixture.WithdrawalNotification | internal/bank/bancolombia/bank_test.go:56-66 | the withdrawal parses to an Expense at "CALLE100-2", account 5021, 70000.00 COP |
| RegexpUtil.FirstMatchIndex | internal/util/regexp/regexp.go:10-18 | the index of the first rule that matches, or none exactly when no rule matches |
| RegexpUtil.MatchesAnyRegexp | internal/util/regexp/regexp.go:10-18 | the first rule in list order whose pattern matches; nothing exactly when none matches, including for an empty list |
| RegexpUtil.StringMatchesAnyRegexp | internal/util/regexp/regexp.go:20-36 | over bare patterns: the first matching one, or nothing exactly when none matches |
| RegexpUtil.Wrap | internal/util/regexp/regexp.go:21-28 | one value-less rule per pattern, in order |
| RegexpUtil.Collect | internal/util/regexp/regexp.go:40-45 | after the loop, the keys are exactly the names of captured groups (named, not group 0, within the submatch) and a name not reused later maps to its group's text |
| RegexpUtil.CollectLastCapture | internal/util/regexp/regexp.go:41-45 | a captured group whose name no later group reuses keeps its text in the result |
| RegexpUtil.ExtractFieldsWithMatch | internal/util/regexp/regexp.go:38-48 | empty on no match; never has the empty name as a key; keys are exactly the names of captured groups |
| RegexpUtil.NamedGroupsAllPresent | internal/util/regexp/regexp.go:39-45 | on a match, every named group is a key, possibly with an empty value |
| RegexpUtil.FourNamedGroups | internal/util/regexp/regexp.go:38-48 | for a pattern with four named groups the result maps each name to its group's text, a later group winning on a repeated name |
| RegexpUtil.ExtractFields | internal/util/regexp/regexp.go:50-56 | the same as extraction with the pattern wrapped in a value-less rule; empty on no match |
| SyncCommon.MatchesAnyRegexp | internal/sync/common/common.go:11-19 | `(true, r)` with `r` the first matching pattern, and `(false, nil)` exactly when none matches |
| SyncCommon.AgreesWithStringMatchesAnyRegexp | internal/sync/common/common.go:11-19 | the older selector returns the same pattern as `StringMatchesAnyRegexp` of internal/util/regexp/regexp.go |
| SyncCommon.ExtractFieldsStringWithRegexp | internal/sync/common/common.go:21-31 | only named groups become keys, never group 0; empty map on no match |
| SyncCommon.ContainsAllRequiredFields | internal/sync/common/common.go:33-48 | true exactly when value, type, place and account are all keys; values and extra keys do not matter |
| SyncCommon.PrintVersion | internal/sync/common/common.go:50-60 | after recording a commit, `GetVersion` returns it |
| Validation.ContainsAllRequiredFields | internal/bank/validation/validation.go:3-19 | true exactly when value, type, place and account are all keys (empty values count); an empty map is rejected |
| Validation.AllKeysPresent | internal/bank/validation/validation.go:11-18 | true exactly when every listed key is present |
| Validation.RequiredFieldsMonotone | internal/bank/validation/validation.go:11-18 | adding keys never turns an accepted map into a rejected one |
| BankTypes.String | internal/bank/banktypes/types.go:18-37 | 0, 1, 2 name "expense", "income", "transaction" and every other value of the int8 "undefined", each in both directions |
| OriginMessage.AsWrittenRegistrationPanics | internal/bank/bancolombia/bancolombia.go:141-150 | every transaction the parser as written produces makes `registerSingleTrxIntoAccounting` panic, since it carries no origin message |
| OriginMessage.CorrectedRegistrationResolvesRecipients | internal/sync/accounting.go:93-103 | with the origin recorded, registration never panics, and when no recipient resolves to a user it returns that error |
| Slices.Distribute | internal/util/slices/split.go:14-20 | after the loop, the map has exactly the keys below min(n, len v), and the bucket of key j holds the elements at indices j, j+n, j+2n, … in input order |
| Slices.Split | internal/util/slices/split.go:5-28 | an empty input gives no buckets and no error whatever n is; a non-empty input with n <= 0 is an error; otherwise the round-robin buckets, collected in key order |
| Slices.StrideAt | internal/util/slices/split.go:15-19 | the k-th element of the bucket of key j is input element j + k·n |
| Slices.PlacementInBuckets | internal/util/slices/split.go:15-19 | input element i is in bucket i mod n at position i div n, so each bucket keeps input order |
| Slices.StrideSizes | internal/util/slices/split.go:15-19 | a bucket with a smaller key holds as many elements as one with a larger key, or one more |
| Slices.BucketShape | internal/util/slices/split.go:14-25 | there are min(n, len v) buckets, none is empty, and any two sizes differ by at most one |
| Slices.BucketsArePermutation | internal/util/slices/split.go:14-25 | the buckets together hold exactly the input elements with their multiplicities |
| Slices.StrideSnoc | internal/util/slices/split.go:16-19 | appending an element extends exactly the bucket whose turn it is and leaves every other bucket unchanged |
| MailRepo.DivideSlice | internal/repository/mailrepo/repository.go:345-364 | n <= 0 is an error even for an empty input; otherwise the same round-robin buckets as Split |
| MailRepo.PlanWorkers | internal/repository/mailrepo/repository.go:223-244 | no ids gives an already closed, empty stream; otherwise min(NumCPU, len ids) workers, each with a non-empty bucket, and the buckets together are a permutation of the ids |
| MailRepo.MoveMessagesToMailbox | internal/repository/mailrepo/repository.go:446-462 | an empty id list makes no client call and returns no error; otherwise one UidMove of all ids to the target mailbox, and the server's error is returned |
| MailRepo.MessageErrText | internal/repository/mailrepo/repository.go:106-108 | "message <n> has error <err>" where <n> is a decimal string denoting the message's sequence number |
| MailRepo.MessageErrsText | internal/repository/mailrepo/repository.go:118-120 | "<n> messages got error" where <n> is a decimal string denoting the number of errors |
| MailRepo.Unwrap | internal/repository/mailrepo/repository.go:122-128 | one error per entry, in entry order, each naming its message and error |
| Queue.CreateQueue | internal/queue/impl/mutex/queue.go:14-19 | an empty queue with the given capacity, within its bound |
| Queue.PushBack | internal/queue/impl/mutex/queue.go:21-32 | refused, and the queue unchanged, exactly when the capacity is positive and reached; otherwise the element goes to the back and the size grows by one; the bound is preserved |
| Queue.Pop | internal/queue/impl/mutex/queue.go:34-46 | an error exactly when the queue is empty, which is then left as it is; otherwise the front element, and the rest of the queue in order |
| Queue.IsEmpty | internal/queue/impl/mutex/queue.go:54-56 | true exactly when the size is zero |
| Queue.IsFull | internal/queue/impl/mutex/queue.go:58-61 | true exactly when the capacity is positive and reached; an unbounded queue is never full |
| Queue.PushRefusedIffFull | internal/queue/impl/mutex/queue.go:21-32 | a push is refused exactly when the queue reports itself full |
| Queue.PushAllWithinCapacity | internal/queue/impl/mutex/queue_test.go:31-44 | while the capacity allows, every push succeeds and the elements queue up in order |
| Queue.FillToCapacity | internal/queue/impl/mutex/queue_test.go:14-29 | a queue of capacity n accepts n pushes, is then full at size n, and refuses the next push without changing |
| Queue.DrainAll | internal/queue/impl/mutex/queue.go:34-46 | popping until empty returns the stored elements front to back and leaves an empty queue of the same capacity |
| Queue.FirstInFirstOut | internal/queue/impl/mutex/queue.go:21-46 | what is pushed into an unbounded queue is popped in the same order |
| AccountNames.AccountPrefix | internal/sync/accounting.go:165-172 | the captured prefix, if any, is a non-empty run of digits and white space ending right before a space, and it is the longest one: no later position also ends such a run; no match exactly when no such position exists |
| AccountNames.Tokens | internal/sync/accounting.go:172-173 | a name that does not match yields no numbers; otherwise the space-separated pieces of the prefix, none containing a space, which joined with single spaces give the prefix back |
| AccountNames.AssignAllDomain | internal/sync/accounting.go:168-178 | the keys assigned are exactly the keys some entry lists |
| AccountNames.AssignAllLast | internal/sync/accounting.go:168-178 | each key holds the value of the last entry that lists it, as repeated map assignment leaves it |
| AccountNames.TokenMapSpec | internal/sync/accounting.go:167-178 | the account-number map holds exactly the numbers some account name yields, each mapped to the last account in list order whose name yields it |
| AccountNames.TwoNumbersPrefix | internal/sync/accounting.go:165-176 | "1234 5678 Ahorros" has prefix "1234 5678" and yields the numbers 1234 and 5678 |
| AccountNames.LabelFirstHasNoPrefix | internal/sync/accounting.go:165-172 | a name that starts with its label ("Ahorros 1234") yields no prefix |
| Accounting.OverridesKeepOthers | internal/sync/accounting.go:180-187 | a number without a user override keeps the account the names gave it, or stays unmapped |
| Accounting.OverrideResolved | internal/sync/accounting.go:182-185 | an override whose target number is mapped and not itself overridden takes the target's account, whatever the iteration order |
| Accounting.OverrideIgnored | internal/sync/accounting.go:182-185 | an override whose target number is unmapped, and not itself overridden, leaves its own number as the names gave it |
| Accounting.MappingWithoutOverrides | internal/sync/accounting.go:160-190 | without overrides for the bank, the mapping holds exactly the numbers of the account names, each mapped to the last account whose name yields it |
| Accounting.MappingWithOverrides | internal/sync/accounting.go:180-187 | for every order in which Go may iterate the overrides: non-overridden numbers keep their accounts, overrides to a mapped number take its account, overrides to an unmapped number are ignored |
| Accounting.ResolveStopsAtCancel | internal/sync/accounting.go:238-242 | the loop returns the context's error at the first lookup that fails while the context is done, after exactly that many lookups |
| Accounting.ResolveWithoutCancel | internal/sync/accounting.go:238-252 | without such a lookup every candidate is looked up, and when none resolves the not-found error is returned |
| Accounting.ResolveLastWins | internal/sync/accounting.go:244-247 | without a cancelled lookup the last candidate that resolves wins; a success does not stop the loop |
| Accounting.CandidatesResolution | internal/sync/accounting.go:230-255 | the whole contract of the candidate lookup: the first cancelled lookup decides; otherwise all candidates are looked up, the last resolving one is returned, and none resolving is the not-found error |
| Accounting.ResolvedIsACandidates | internal/sync/accounting.go:238-254 | a returned configuration is the one some candidate's lookup gave |
| Accounting.FirstNamed | internal/sync/accounting.go:205-215 | the first category carrying the name, and none when no category carries it |
| Accounting.CreateCategoryIfAbsent | internal/sync/accounting.go:192-228 | a failed listing is returned after one call; the first category with the name gives its id whatever its type; otherwise dry-run gives the empty id with no creation, and a real run creates the category and returns the new id or the error |
| Accounting.CategoryName | internal/sync/accounting.go:105-108 | "PENDING_" followed by the kind's name in capitals, character by character |
| Accounting.SignedAmount | internal/sync/accounting.go:126-129 | an expense is recorded negative, any other kind with the transaction's own sign |
| Accounting.RegisterSingleTrxIntoAccounting | internal/sync/accounting.go:90-158 | a transaction without an origin message panics and every other one completes; dry-run creates neither an entry nor a category; a real run that returns no error has created an entry |
| Accounting.RegisteredEntry | internal/sync/accounting.go:93-157 | a created entry ends the trace, is the only one, and only happens outside dry-run after the configuration, the accounts, the category and the mapping all succeeded; it goes to the mapped account and the PENDING category, with the signed amount in COP, the date and the "** <action> de <description>" text; the registration returns the entry call's error |
| Accounting.RegistrationShape | internal/sync/accounting.go:93-157 | a registration that creates an entry took every step successfully, and its trace is the accounts call, the category calls and the entry call |
| Accounting.CategoryCallsCreateNoEntry | internal/sync/accounting.go:192-228 | settling the category never creates an entry |
| Accounting.UnassignedAccountCreatesNothing | internal/sync/accounting.go:131-134 | an account number the mapping does not know gives the unassigned-account error and no entry, in dry-run or not |
| ToshlSync.FirstNamed | internal/sync/toshl.go:65-69 | the first category carrying the name, and none when no category carries it |
| ToshlSync.CreateCategoryIfAbsent | internal/sync/toshl.go:50-82 | an invalid kind is refused before any call; a failed listing is an error after one call; the first category named "PENDING_<KIND>" gives its id; otherwise a category of that name and kind is created and its id, or the error, returned |
| ToshlSync.GetCategory | internal/sync/toshl.go:84-104 | a nil client is an error; a cached kind answers without calls; otherwise the lookup or creation decides, and only a success is cached |
| ToshlSync.GetCategoryMemoises | internal/sync/toshl.go:93-103 | after a successful lookup, asking again for the kind gives the same id with no call and the cache unchanged |
| ToshlSync.GetCategoryFailureNotCached | internal/sync/toshl.go:94-98 | a failed lookup leaves the cache unchanged, so the next call for a valid kind asks the client again |
| ToshlSync.BuildAccountsCache | internal/sync/toshl.go:106-130 | fails exactly when the client's account listing fails |
| ToshlSync.AccountsCacheSpec | internal/sync/toshl.go:114-125 | the built map holds exactly the numbers some account name yields, each mapped to the id of the last account whose name yields it |
| ToshlSync.AccountsCacheDomain | internal/sync/toshl.go:114-125 | the built map's keys are exactly the numbers the account names yield |
| ToshlSync.AccountsCacheLast | internal/sync/toshl.go:114-125 | each number maps to the id of the last account whose name yields it |
| ToshlSync.GetMappableAccount | internal/sync/toshl.go:132-146 | the map is built on the first call only, with one accounts call, and a failure to build it (or a nil client) panics; afterwards a number is found exactly when the map has it, and a missing one gives the message with the id overwritten by the failed lookup, which is empty |
| ToshlSync.MappableAccountsBuiltOnce | internal/sync/toshl.go:133-138 | once built, later lookups of any number make no client call and keep the cache |
| ToshlSync.SignedAmount | internal/sync/toshl.go:161-165 | an expense is recorded negative, any other kind with the transaction's own sign |
| ToshlSync.CreateEntryFor | internal/sync/toshl.go:148-191 | a panic while building the account map propagates; once the account and category lookups succeed, it panics exactly when the time zone is unknown, and otherwise it creates the entry under that account and category or returns the client's error behind "could not create entry: "; a created entry required a known time zone and carries the signed amount, COP, the date and "** <kind> de <place>", is the last call, and the client accepted it |
| ToshlSync.UnknownAccountStopsEarly | internal/sync/toshl.go:151-154 | an unknown account number is returned as the not-found error before any category call; the only possible call builds the map |
| ToshlSync.CategoryFailureCreatesNoEntry | internal/sync/toshl.go:156-159 | a failed category lookup returns an error and creates no entry |
| ToshlSync.CreatedEntryTargets | internal/sync/toshl.go:151-181 | a created entry is filed under the mapped account and the category of the transaction's kind |
| AccountingService.GetClient | internal/services/accountingserv/service.go:34-41 | a stored client is returned without building; an unknown token builds one and stores it; no other token's client changes |
| AccountingService.ClientBuiltOncePerToken | internal/services/accountingserv/service.go:34-41 | asking for the same token again returns the same client without building |
| AccountingService.GetAccounts | internal/services/accountingserv/service.go:43-66 | the client's error unchanged, or its accounts with id and name, in the client's order |
| AccountingService.GetCategories | internal/services/accountingserv/service.go:68-92 | the client's error unchanged, or its categories with id, name and type, in the client's order |
| AccountingService.CreateCategory | internal/services/accountingserv/service.go:94-125 | a type other than income, expense or transaction is refused with no call, exactly; otherwise one creation call, and the client's error unchanged or the category with the id the client assigned |
| AccountingService.CreateEntry | internal/services/accountingserv/service.go:127-160 | one entry call carrying the input's amount, currency code, date, description, account and category; no error exactly when the client accepts, otherwise the client's error behind "could not create entry: " |
| ToshlProxy.Categories | internal/services/accountingserv/proxy/toshl.go:54-68 | a fresh cached list answers with no call; otherwise the inner client is asked and only a successful answer is cached |
| ToshlProxy.Accounts | internal/services/accountingserv/proxy/toshl.go:70-84 | the same read-through rule under the accounts key |
| ToshlProxy.CreateCategory | internal/services/accountingserv/proxy/toshl.go:86-92 | the creation is forwarded and its error returned; the cached categories are dropped whether or not it succeeded, and the cached accounts are kept |
| ToshlProxy.CreateEntry | internal/services/accountingserv/proxy/toshl.go:94-98 | forwarded, with the cache untouched |
| ToshlProxy.CategoriesServedFromCache | internal/services/accountingserv/proxy/toshl.go:33-68 | after a successful miss, any read within the expiration (5 minutes unless configured) is answered from the cache, whatever the inner client would now say |
| ToshlProxy.FailedReadNotCached | internal/services/accountingserv/proxy/toshl.go:61-64 | a failed read caches nothing, so the next read asks the inner client again |
| ToshlProxy.CreateCategoryInvalidates | internal/services/accountingserv/proxy/toshl.go:86-92 | after a creation the next categories read goes to the inner client, while fresh cached accounts are still served |
| DateService.SinceFallbackDate | internal/services/dateprocessingserv/service.go:28 | the fallback lies exactly thirty days before the process started |
| DateService.Override | internal/services/dateprocessingserv/service.go:82-101 | an override exists exactly when the variable is non-empty and parses as a day, and it is that day |
| DateService.UnmarshalProcessedDate | internal/services/dateprocessingserv/service.go:148-166 | a non-string attribute is refused with its rendering; a string attribute succeeds exactly when it parses as an RFC 822 date, giving that date |
| DateService.MarshalProcessedDate | internal/services/dateprocessingserv/service.go:141-146 | a string attribute holding the rendered date |
| DateService.MarshalRoundTrip | internal/services/dateprocessingserv/service.go:141-166 | unmarshalling a marshalled date gives the date back whenever the time library parses its own rendering to the same instant |
| DateService.DateFromStorage | internal/services/dateprocessingserv/service.go:172-200 | the store's error comes back behind the table and key text; an item without the field gives Go's zero time; a present field is unmarshalled |
| DateService.GetLastProcessedDate | internal/services/dateprocessingserv/service.go:54-80 | a valid override is returned with no store request; else a nil client is an error; else one read, and the stored date one day earlier, or the start-up fallback when the read fails |
| DateService.SaveProcessedDate | internal/services/dateprocessingserv/service.go:103-137 | a nil client panics; otherwise one update sets the field to the rendered date under key Id = 1, and the client's error comes back wrapped; there is no dry-run gate |
| DateService.OverrideDecidesAlone | internal/services/dateprocessingserv/service.go:62-64 | with a valid override, neither the client nor the stored item changes the answer, and nothing is read |
| DateService.SaveThenRead | internal/services/dateprocessingserv/service.go:54-137 | a date saved successfully is read back one day earlier, when no override is set and the time library parses its own rendering |
| Items.SetDate | internal/sync/nosql.go:61-68 | the update targets table "toshl-data", key Id = 1, binds ":r" to the text and uses the expression "set LastProcessedDate = :r" |
| Items.Apply | internal/sync/nosql.go:61-68 | applying a "set LastProcessedDate = :r" update stores the bound text in the field and keeps every other attribute |
| Items.SetDateStoresText | internal/sync/nosql.go:61-68 | the update the code sends stores exactly its text in the date field |
| SyncNosql.LastProcessedDate | internal/sync/nosql.go:21-49 | success exactly when the item is read, has the field, holds a string and that string parses; each failing step gives its own error text, the missing field one including the nil-error rendering |
| SyncNosql.UpdateLastProcessedDate | internal/sync/nosql.go:55-71 | dry-run sends nothing and returns no error; otherwise one update with the rendered date, and the client's error as is |
| SyncNosql.UpdateThenRead | internal/sync/nosql.go:21-71 | a date written successfully is read back unchanged when the time library parses its own rendering |
| SyncMails.FallbackDate | internal/sync/mails.go:15 | thirty days before now |
| SyncMails.LastProcessedDate | internal/sync/mails.go:14-71 | never fails: the stored date when the client is created and the item, field, string and date steps all succeed, the fallback after any failure; one store read once the client exists |
| SyncMails.AgreesWithNosql | internal/sync/mails.go:33-71 | equals the newer reader's date whenever that one succeeds, and the fallback wherever it reports an error |
| SyncMails.Classify | internal/sync/mails.go:97-108 | the first bank in list order whose filter accepts the message; the bank-not-found error exactly when none does |
| SyncMails.GetMessagesFromInbox | internal/sync/mails.go:77-112 | the watermark is read and used unshifted as the "since" of the "INBOX" request; a fetch error is returned; otherwise each message is classified, in order |
| SyncDate.EarliestIsLowerBound | internal/sync/date.go:14-21 | the earliest date is at most now and at most every message date |
| SyncDate.EarliestIsAttained | internal/sync/date.go:14-21 | the earliest date is now or some message's date |
| SyncDate.SaveLastExecutionDate | internal/sync/date.go:11-33 | dry-run saves nothing and returns no error; otherwise one save of the minimum of now and the message dates, and the save's error returned |
| SyncArchive.AssertMailboxExists | internal/sync/archive.go:72-84 | completes exactly when the archive mailbox is listed, and otherwise panics naming it |
| SyncArchive.SuccessfulIdsSpec | internal/sync/archive.go:40-45 | an id is collected exactly when some error-free transaction carries it; none is collected exactly when every result is an error |
| SyncArchive.SuccessfulIdsOfAllOk | internal/sync/archive.go:40-45 | when every result is error-free, the ids are the transactions' ids in gathered order |
| SyncArchive.ArchiveTransactions | internal/sync/archive.go:18-70 | an empty name, a failed mailbox listing or an unlisted mailbox panics, and nothing else does; then no ids or dry-run sends nothing; otherwise one move of the error-free ids to the archive, and its error delivered once |
| SyncArchive.NothingToArchive | internal/sync/archive.go:47-50 | when every gathered result is an error no move is sent and no error delivered |
| SyncMail.GatherIsConcatenation | internal/sync/mail.go:16-30 | when every fetch succeeds the messages come in bank order, each tagged with its bank, and the messages tagged b are exactly bank b's answer in its order |
| SyncMail.GatherFailsAtFirst | internal/sync/mail.go:17-20 | a failing fetch aborts with the error of the first bank whose fetch fails |
| SyncMail.RequestsUpToFirstFailure | internal/sync/mail.go:16-20 | the banks asked are those up to and including the first failing one |
| SyncMail.GetEmailFromInbox | internal/sync/mail.go:9-33 | success exactly when every bank's fetch succeeds, with the messages concatenated in bank order and tagged; otherwise the first failure's error after asking up to that bank; every request is on "INBOX" with the same since |
| SyncMail.FirstFailing | internal/sync/mail.go:16-20 | the first bank, in list order, whose fetch fails |
| SyncMail.AssertMailboxExists | internal/sync/mail.go:58-70 | completes exactly when the archive mailbox is listed, and otherwise panics naming it |
| SyncMail.ArchiveEmailsFromSuccessfulTransactions | internal/sync/mail.go:35-56 | an empty name, a failed listing, an unlisted mailbox or a failed move panics, and nothing else does; otherwise the ids of all given transactions are moved to the archive in order, even when there are none |
| SyncNotification.GroupSpec | internal/sync/notification.go:16-28 | the groups are keyed by exactly the emails present, and each group is that user's responses in their original order, never empty |
| SyncNotification.Version | internal/sync/notification.go:55-60 | the first three characters of a context version longer than three, otherwise "dev" |
| SyncNotification.Sign | internal/sync/notification.go:73-77 | "-" exactly for expenses, nothing otherwise |
| SyncNotification.NotifyUserWithSMS | internal/sync/notification.go:45-106 | the header with the version and the response count, one line for each of the first two responses, and "... y otras <rest>" when there are more; the newline-joined text goes to the number unless it is a dry run, and the send error is returned |
| SyncNotification.NotifyUsers | internal/sync/notification.go:13-43 | one SMS per user present, to the number of that user's first response, holding the text built from all of that user's responses; nothing under dry-run; the result is always nil |
| SyncNotifications.CountsAddUp | internal/sync/notifications.go:33-44 | the three counters never exceed the number of notifications, and add up to it exactly when every kind is known |
| SyncNotifications.Version | internal/sync/notifications.go:53-56 | the context's version when there is one, otherwise "dev" |
| SyncNotifications.Tally | internal/sync/notifications.go:33-42 | each counter is the number of notifications of its kind |
| SyncNotifications.SendNotifications | internal/sync/notifications.go:16-82 | the counts per kind and one line per notification in arrival order; nothing is sent when there were none or under dry-run; otherwise one message, the header and the lines joined by newlines, and a send error delivered once |
| NotificationStore.Initial | internal/notifications/notifications.go:19-20 | no queue yet, open, and no client |
| NotificationStore.Created | internal/notifications/notifications.go:22-26 | the unbounded queue is created on the first call only, and nothing else changes |
| NotificationStore.SetNotificationsClient | internal/notifications/notifications.go:28-44 | a nil client and a second client are refused, keeping the first; otherwise the client is set; the pending texts never change |
| NotificationStore.PushNotification | internal/notifications/notifications.go:81-90 | refused once closed, leaving the store as it was; otherwise the text is queued at the back |
| NotificationStore.ErrorNotify | internal/notifications/notifications.go:92-95 | the message is queued with the "ERROR: " prefix, or refused once closed |
| NotificationStore.Flush | internal/notifications/notifications.go:46-79 | without a client nothing is sent and the queue is kept; with one the queue is drained and the newline-joined texts sent once, unless that text is empty |
| NotificationStore.Close | internal/notifications/notifications.go:97-100 | the store is closed and then flushed |
| NotificationStore.PushAllQueues | internal/notifications/notifications.go:81-90 | before closing, pushed texts queue up in push order |
| NotificationStore.Lifecycle | internal/notifications/notifications.go:28-100 | set a client, push texts, close: exactly one message holding the texts in push order is sent, unless it would be empty, and a later push is refused |
| FixedClient.CreateFixedClient | internal/notifications/fixed_client.go:15-29 | a nil client is refused first, then an empty sender or recipient; success exactly otherwise, storing the three as given |
| FixedClient.SendMsg | internal/notifications/fixed_client.go:31-33 | the stored sender and recipient are sent with the message, and the SMS client's answer is returned unchanged |
| FixedClient.CreatedClientForwards | internal/notifications/fixed_client.go:15-33 | a created client sends from and to the non-empty endpoints it was created with |
| TypesNotification.String | internal/types/notification.go:16-27 | each of success, failed and parse has its own name, and every other value, and only those, is "unknown" |
| TypesNotification.NotificationString | internal/types/notification.go:40-46 | the text is the formatted date, the separator, the message, the separator again and the kind's name, each at its position |
| TypesTransaction.String | internal/types/transaction.go:17-28 | expense, income and transaction each have their own name, and exactly the values outside 0..2 are "undefined" |
| TypesTransaction.IsValid | internal/types/transaction.go:30-32 | a kind is valid exactly when it is one of the three declared values |
| TypesTransaction.StringInjective | internal/types/transaction.go:17-32 | two valid kinds with the same name are the same kind |
| Market.InTimeSpan | internal/market/market.go:40-48 | an ordered span holds the times between its ends inclusive, an empty span only its instant, and a reversed span the times outside it plus both ends |
| Market.ShouldRun | internal/market/market.go:20-38 | the report runs exactly when some configured time opens a seven-minute window, `[from, from + 7]`, that holds the current minute |
| Market.NoMidnightWrap | internal/market/market.go:25-32 | a window opened at 23:58 does not reach 00:02 of the same day |
| Market.UnparsableFrameNeverRuns | internal/market/market.go:29-32 | a configured time that does not parse becomes Go's zero time and never matches a minute of the day |
| Market.Run | internal/market/market.go:50-69 | without a Twilio account nothing runs and there is no error; otherwise stocks run first, a stocks error stops before funds, and else the funds error is returned |
| Market.ValuesSpec | internal/market/market.go:152-163 | exactly the stocks whose quote succeeded get a value, and the value is the quote |
| Market.GetStocks | internal/market/market.go:144-170 | a client that cannot be built panics; the result is an error exactly when no stock could be quoted, and else the successful quotes |
| Market.FundsMapSpec | internal/market/market.go:180-183 | the fund index holds exactly the listed names, each mapped to the last fund listed under it |
| Market.FundsMapHas | internal/market/market.go:180-183 | a name is in the fund index exactly when some listed fund has it |
| Market.FundsMapLast | internal/market/market.go:180-183 | an indexed name maps to the last listed fund of that name |
| Market.GetInvestmentFundByName | internal/market/market.go:208-221 | an unknown name gives the "not found" error; a known one is fetched by its NIT and that answer is returned |
| Market.FetchedEmpty | internal/market/market.go:185-198 | no fund is collected exactly when every requested fund failed, and never more funds than requests |
| Market.GetInvestmentFunds | internal/market/market.go:172-206 | a listing error is returned; otherwise an error exactly when every requested fund failed, which includes an empty request, and else the fetched funds in request order |
| FundTypes.CleanMoney | internal/market/investment-fund/bancolombia/types/types.go:28-30 | the cleaned money text has no comma and is no longer than the input |
| FundTypes.CleanPercentage | internal/market/investment-fund/bancolombia/types/types.go:46-48 | the cleaned percentage text has no comma |
| FundTypes.CleanDate | internal/market/investment-fund/bancolombia/types/types.go:60-63 | the cleaned date text is no longer than the input |
| FundTypes.MoneyUnwraps | internal/market/investment-fund/bancolombia/types/types.go:28-30 | a quoted, dollar-prefixed amount cleans to the amount with its commas removed |
| FundTypes.PercentageUnwraps | internal/market/investment-fund/bancolombia/types/types.go:46-48 | a quoted percentage cleans to the number with its decimal comma made a point |
| FundTypes.DateUnwraps | internal/market/investment-fund/bancolombia/types/types.go:60-63 | a quoted date cleans to its digits |
| FundTypes.UnmarshalMoney | internal/market/investment-fund/bancolombia/types/types.go:28-38 | a parse failure returns the error and leaves the value unchanged; otherwise the value becomes the parsed amount in COP |
| FundTypes.UnmarshalPercentage | internal/market/investment-fund/bancolombia/types/types.go:46-56 | a parse failure returns the error and leaves the value unchanged; otherwise the value becomes the parsed number |
| FundTypes.UnmarshalDate | internal/market/investment-fund/bancolombia/types/types.go:60-70 | a parse failure returns the error and leaves the value unchanged; otherwise the value becomes the parsed day |
| FundTypes.MoneyExample | internal/market/investment-fund/bancolombia/types/types.go:28-31 | the field text `"$1,234.50"` is handed to the float parser as "1234.50" |
| FundTypes.RemoveThousandsComma | internal/market/investment-fund/bancolombia/types/types.go:30 | removing the comma from "1,234.50" gives "1234.50" |

## Left out

- Concurrency is not modelled: the worker pools, goroutines, channels, the queue's mutex, `sync.Once` and `sync.Map`. Each operation is modelled by its sequential result. Channel results become returned values, and "at most one value" becomes an `Option`.
- SyncMails.GetMessagesFromInbox: fixes the output order as the fetch order (`results[i]` classifies `messages[i]`), whereas `pipe.ConcurrentMap` in pkg/pipe/pipelines.go runs several workers and may emit the results in any order.
- `doCancelableOperation` in internal/services/accountingserv/service.go:162-192 is left out, because it only races a call against context cancellation. Context cancellation is modelled only where it changes a decision: in `getUserConfigFromCandidates`, as the `ctxErr` input.
- The I/O of IMAP, DynamoDB, Toshl, Twilio and the market APIs is left out. Their answers are inputs, and the calls made on them are returned as traces.
- Date texts are not modelled: `time.RFC822Z`, "2006-01-02", "20060102" and "15:04" are abstract format and parse functions.
- DateService.MarshalRoundTrip: conditioned on the time library parsing its own rendering back to the same instant, because RFC 822 dates with a numeric zone carry no seconds.
- DateService.SaveThenRead: conditioned in the same way, for the same reason.
- SyncNosql.UpdateThenRead: conditioned in the same way, for the same reason.
- Floating point is not modelled. Stock quotes, fund percentages and `strconv.ParseFloat` results are reals, and the parser is an input. Amounts parsed from bank mails are integer hundredths.
- printf rendering of amounts, stocks and funds (`%.2f`, `%.1f%%`, `%5s`, `%10s`) is left out. For the same reason, `sendStockInformation`, `sendFundsNotification` and the per-line SMS formatting of amounts are modelled only as far as their structure goes.
- BancolombiaCurrency.GetValueFromText: does not model the error `strconv.ParseFloat` returns for a digit run beyond the float64 range (for example 400 nines), nor the float64 rounding of large amounts. Amounts are exact integer hundredths, so such a text reads as `Ok`.
- BancolombiaLegacy.GetValueFromText: the same range error and rounding are not modelled, for the same reason.
- Strings are sequences of characters, and UTF-8 byte lengths are not modelled. Go's `len` and slicing count bytes, so the two agree only on ASCII text.
- SyncNotification.Version: counts characters where Go's `len(version) > 3` and `version[:3]` count bytes. The two agree on the ASCII version strings a build sets.
- Accounting.RegisterSingleTrxIntoAccounting: the override iteration order `env.overrideOrder` is any sequence. This over-approximates Go's map iteration, since every order Go can produce is such a sequence. `Accounting.MappingWithOverrides` states the resulting mapping for every order that lists each override key exactly once.
- The Go regular-expression engine is uninterpreted, keyed by pattern name. Properties that depend on what a particular pattern matches are stated for an engine that answers as the pattern would, for example in the fixtures.
- 64-bit integer overflow of amounts and instants is not modelled, because integers are unbounded. The `int8` and `uint8` enums and `uint32` sequence numbers keep their ranges.
- Error texts built with `%v`, `%+v`, `%q` or `%p` keep only their fixed part, such as the "already set" prefix of `SetNotificationsClient`, which prints the old client's address.
- SMS and push-notification failures that the code only logs do not enter the model. Logging as a whole is left out.
- `time.LoadLocation` is left out. Whether the configured zone is known is the `zoneKnown` input of `ToshlSync.CreateEntryFor`.
- The market's `processStocks` and `processFunds` are modelled only through `Market.Run`, which takes their outcomes as inputs. Their zone lookup and the enabled and window checks are `Market.ShouldRun` and the inputs to `Run`.
- The in-memory cache's janitor (cleanup interval) is left out, because it only frees memory. A stale entry is treated as absent, which is what `Get` reports.
- Slices.Split: returns the buckets in key order. Go's map iteration order is unspecified, so key order is one of the orders the code can produce.
- MailRepo.DivideSlice: returns the buckets in key order, for the same reason.
- The type behind `imaptypes.Message` is not part of this model. Its shape (a possibly nil envelope message and a raw body) is inferred from its uses in internal/bank/bancolombia/bank.go.
- The definition of `ErrMessageBankNotFound` is not part of this model. It is kept as a named sentinel.
- internal/bank/bancolombia/bancolombia.go:148 sets a `CorrelationID` field, which `banktypes.TrxInfo` (internal/bank/banktypes/types.go:39-48) does not declare. The model keeps the message id and, as written, no origin message.
- internal/sync/types/types.go:52-73 is not modelled separately. It is the same `int8` enum, with the same names and validity test, as internal/types/transaction.go, so `SyncTypes` reuses the `TypesTransaction` definitions.
- The fund HTTP calls, the RapidAPI client and the Twilio clients are left out. Their results are inputs (`quote`, `byId`, the available-fund listing).

## Findings

| source | as written | input that shows it | evidently intended | confidence | as-written member | corrected member |
|---|---|---|---|---|---|---|
| internal/bank/bancolombia/bancolombia.go:141-150, internal/sync/accounting.go:95 | the parser never sets `OriginMessage`, and registration calls `trx.OriginMessage.To()` on that nil interface | any Bancolombia message the parser accepts, then registered | the parser records the message it parsed, and registration resolves the user from that message's recipients | not executed; medium, since the same file also sets a field `TrxInfo` does not declare | OriginMessage.AsWrittenRegistrationPanics | OriginMessage.CorrectedRegistrationResolvesRecipients |
