/** Model of internal/services/dateprocessingserv/service.go: the date
    service's last-processed date (an override from the environment, else the
    stored date moved back one day, else a fallback fixed at process start)
    and its saving.  Instants are seconds; the environment variable's value,
    the store's answer and the time library's parsers are inputs. */
module DateService {
  import opened Wrappers
  import Items

  const Day: int := 24 * 60 * 60
  /** Go's zero `time.Time` (January 1 of year 1, UTC) in Unix seconds. */
  const GoZeroTime: int := -62135596800

  const NilClient: string := "dynamoDB client is nil"
  const NotAString: string := "field is not a string type: "
  const GetItemFailed: string := "could not get item with id [1] from dynamodb table [toshl-data]: "
  const UpdateFailed: string := "could not update processing date: "

  /** `sinceFallbackDate`: thirty days before the process started. */
  function SinceFallbackDate(processStart: int): (d: int)
    ensures processStart - d == 30 * Day
  {
    processStart - 30 * 24 * 60 * 60
  }

  /** `getLastProcessedDateOverride`: a non-empty variable that parses as a
      "2006-01-02" day; an empty or unparsable one is ignored. */
  function Override(env: string, parseDay: string -> Result<int>): (r: Option<int>)
    ensures r.Some? <==> env != "" && parseDay(env).Ok?
    ensures r.Some? ==> r.value == parseDay(env).value
  {
    if env != "" && parseDay(env).Ok? then Some(parseDay(env).value) else None
  }

  /** `ProcessedDate.UnmarshalDynamoDBAttributeValue`: a string attribute
      holding an RFC 822 date; anything else is refused. */
  function UnmarshalProcessedDate(v: Items.Attr, parse: string -> Result<int>): (r: Result<int>)
    ensures v.Other? ==> r == Err(NotAString + v.rendered)
    ensures v.Str? && parse(v.s).Err? ==> r.Err?
    ensures r.Ok? <==> v.Str? && parse(v.s).Ok?
    ensures r.Ok? ==> r.value == parse(v.s).value
  {
    match v
    case Other(rendered) => Err(NotAString + rendered)
    case Str(s) =>
      match parse(s)
      case Err(cause) => Err("\"" + s + "\" is not a string representing a date: " + cause)
      case Ok(d) => Ok(d)
  }

  /** `ProcessedDate.MarshalDynamoDBAttributeValue`: the rendered date as a string attribute. */
  function MarshalProcessedDate(d: int, format: int -> string): (v: Items.Attr)
    ensures v.Str? && v.s == format(d)
  {
    Items.Str(format(d))
  }

  /** Marshalling and unmarshalling are inverse whenever the time library
      parses its own rendering back to the same instant. */
  lemma MarshalRoundTrip(d: int, format: int -> string, parse: string -> Result<int>)
    requires parse(format(d)) == Ok(d)
    ensures UnmarshalProcessedDate(MarshalProcessedDate(d, format), parse) == Ok(d)
  {
  }

  /** `getDateFromStorage`: the store's error is reported; an item without
      the field decodes to the zero time, since the decoder leaves an absent
      field as it was; a present field goes through `UnmarshalProcessedDate`. */
  function DateFromStorage(item: Result<Items.Item>, parse: string -> Result<int>): (r: Result<int>)
    ensures item.Err? ==> r == Err(GetItemFailed + item.error)
    ensures item.Ok? && Items.Field !in item.value ==> r == Ok(GoZeroTime)
    ensures item.Ok? && Items.Field in item.value ==> r == UnmarshalProcessedDate(item.value[Items.Field], parse)
  {
    match item
    case Err(e) => Err(GetItemFailed + e)
    case Ok(res) =>
      if Items.Field !in res then Ok(GoZeroTime)
      else UnmarshalProcessedDate(res[Items.Field], parse)
  }

  /** `GetLastProcessedDate`.  The second component is the store requests made. */
  function GetLastProcessedDate(env: string, parseDay: string -> Result<int>, clientPresent: bool,
                                item: Result<Items.Item>, parse: string -> Result<int>, processStart: int): (r: (Result<int>, seq<Items.GetItem>))
    ensures Override(env, parseDay).Some? ==> r == (Ok(Override(env, parseDay).value), [])
    ensures Override(env, parseDay).None? && !clientPresent ==> r == (Err(NilClient), [])
    ensures Override(env, parseDay).None? && clientPresent ==> r.1 == [Items.ReadDate] && r.0.Ok?
    ensures Override(env, parseDay).None? && clientPresent && DateFromStorage(item, parse).Err? ==>
              r.0.value == SinceFallbackDate(processStart)
    ensures Override(env, parseDay).None? && clientPresent && DateFromStorage(item, parse).Ok? ==>
              r.0.value == DateFromStorage(item, parse).value - Day
  {
    match Override(env, parseDay)
    case Some(d) => (Ok(d), [])
    case None =>
      if !clientPresent then (Err(NilClient), [])
      else
        match DateFromStorage(item, parse)
        case Err(_) => (Ok(SinceFallbackDate(processStart)), [Items.ReadDate])
        case Ok(since) => (Ok(since - Day), [Items.ReadDate])
  }

  /** `SaveProcessedDate`: the rendered date is written under key `Id = 1`
      with `set LastProcessedDate = :r`; a client error comes back wrapped.
      There is no dry-run gate here, and a missing client is a nil
      dereference. */
  function SaveProcessedDate(clientPresent: bool, t: int, format: int -> string, clientError: Option<string>): (r: Exec<(Option<string>, seq<Items.Update>)>)
    ensures !clientPresent <==> r.Panicked?
    ensures r.Done? ==> r.value.1 == [Items.SetDate(format(t))]
    ensures r.Done? ==> (r.value.0.None? <==> clientError.None?)
    ensures r.Done? && clientError.Some? ==> r.value.0 == Some(UpdateFailed + clientError.value)
  {
    if !clientPresent then Panicked(NilDereference)
    else
      var sent := [Items.SetDate(format(t))];
      match clientError
      case None => Done((None, sent))
      case Some(e) => Done((Some(UpdateFailed + e), sent))
  }

  /** A valid override decides alone: whatever the client and the store, the
      override is returned and the store is not read. */
  lemma OverrideDecidesAlone(env: string, parseDay: string -> Result<int>, processStart: int, parse: string -> Result<int>,
                             client1: bool, item1: Result<Items.Item>, client2: bool, item2: Result<Items.Item>)
    requires Override(env, parseDay).Some?
    ensures GetLastProcessedDate(env, parseDay, client1, item1, parse, processStart)
         == GetLastProcessedDate(env, parseDay, client2, item2, parse, processStart)
    ensures GetLastProcessedDate(env, parseDay, client1, item1, parse, processStart).1 == []
  {
  }

  /** Save then read: a date saved successfully is read back one day earlier
      (when no override is set and the time library parses its own rendering). */
  lemma SaveThenRead(item: Items.Item, t: int, format: int -> string, parse: string -> Result<int>,
                     env: string, parseDay: string -> Result<int>, processStart: int)
    requires parse(format(t)) == Ok(t)
    requires Override(env, parseDay).None?
    ensures var saved := SaveProcessedDate(true, t, format, None);
            && saved.Done? && saved.value.0.None? && |saved.value.1| == 1
            && GetLastProcessedDate(env, parseDay, true, Ok(Items.Apply(item, saved.value.1[0])), parse, processStart).0
               == Ok(t - Day)
  {
    Items.SetDateStoresText(item, format(t));
  }
}
