/** Model of internal/sync/nosql.go: the sync package's reading and writing
    of the last-processed date through a key-value client.  Date text is
    RFC 822 with numeric zone; parsing and formatting are the time library's
    and enter as functions. */
module SyncNosql {
  import opened Wrappers
  import Items

  const GetItemFailed: string := "could not get item with id [1] from dynamodb table [toshl-data]: "
  /** The `%w` verb there formats a nil error, which `fmt` renders as `%!w(<nil>)`. */
  const MissingField: string := "item does not contain required field [LastProcessedDate]: %!w(<nil>)"
  const NotAString: string := "item field is not a string: "

  function NotADate(text: string, cause: string): string
  {
    "item field [" + text + "] is not a string representing a date: " + cause
  }

  /** The stored date, when every step of the chain succeeds. */
  ghost predicate Readable(item: Result<Items.Item>, parse: string -> Result<int>)
  {
    && item.Ok? && Items.Field in item.value && item.value[Items.Field].Str?
    && parse(item.value[Items.Field].s).Ok?
  }

  /** `LastProcessedDate`: the item's answer, its field, the field's string
      and the parsed date, each failure reported with its own error. */
  function LastProcessedDate(item: Result<Items.Item>, parse: string -> Result<int>): (r: Result<int>)
    ensures r.Ok? <==> Readable(item, parse)
    ensures r.Ok? ==> r.value == parse(item.value[Items.Field].s).value
    ensures item.Err? ==> r == Err(GetItemFailed + item.error)
    ensures item.Ok? && Items.Field !in item.value ==> r == Err(MissingField)
    ensures item.Ok? && Items.Field in item.value && item.value[Items.Field].Other? ==>
              r == Err(NotAString + item.value[Items.Field].rendered)
    ensures item.Ok? && Items.Field in item.value && item.value[Items.Field].Str?
            && parse(item.value[Items.Field].s).Err? ==>
              r == Err(NotADate(item.value[Items.Field].s, parse(item.value[Items.Field].s).error))
  {
    match item
    case Err(e) => Err(GetItemFailed + e)
    case Ok(res) =>
      if Items.Field !in res then Err(MissingField)
      else
        match res[Items.Field]
        case Other(v) => Err(NotAString + v)
        case Str(text) =>
          match parse(text)
          case Err(cause) => Err(NotADate(text, cause))
          case Ok(d) => Ok(d)
  }

  /** `UpdateLastProcessedDate`: under dry-run nothing is sent and there is no
      error; otherwise the rendered date is written and the client's error,
      if any, is returned as is. */
  function UpdateLastProcessedDate(dryRun: bool, date: int, format: int -> string, clientError: Option<string>): (r: (Option<string>, seq<Items.Update>))
    ensures dryRun ==> r == (None, [])
    ensures !dryRun ==> r.1 == [Items.SetDate(format(date))] && r.0 == clientError
  {
    if dryRun then (None, [])
    else (clientError, [Items.SetDate(format(date))])
  }

  /** Round trip: a date written by `UpdateLastProcessedDate` is read back by
      `LastProcessedDate`, provided the time library parses its own rendering
      back to the same instant. */
  lemma UpdateThenRead(item: Items.Item, date: int, format: int -> string, parse: string -> Result<int>)
    requires parse(format(date)) == Ok(date)
    ensures var (err, sent) := UpdateLastProcessedDate(false, date, format, None);
            && err.None? && |sent| == 1
            && LastProcessedDate(Ok(Items.Apply(item, sent[0])), parse) == Ok(date)
  {
    Items.SetDateStoresText(item, format(date));
  }
}
