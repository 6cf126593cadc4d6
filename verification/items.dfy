/** The one DynamoDB item that holds the last-processed date, as the sync
    package (internal/sync/nosql.go, internal/sync/mails.go) and the date
    service (internal/services/dateprocessingserv/service.go) address it:
    table "toshl-data", key `Id = 1`, field "LastProcessedDate".  DynamoDB
    itself is a collaborator: what `GetItem` answers is an input, and an
    `UpdateItem` is a recorded request. */
module Items {

  const Table: string := "toshl-data"
  const Field: string := "LastProcessedDate"
  const ItemId: int := 1
  /** `fmt.Sprintf("set %s = :r", field)`. */
  const SetExpression: string := "set LastProcessedDate = :r"

  /** An attribute value: a string, or anything else (with its `%v` rendering). */
  datatype Attr = Str(s: string) | Other(rendered: string)

  /** An item as `GetItem` returns it: attribute name to value. */
  type Item = map<string, Attr>

  /** The key of the item. */
  const Key: map<string, int> := map["Id" := ItemId]

  /** A `GetItem` request: table and key. */
  datatype GetItem = GetItem(table: string, key: map<string, int>)

  /** The one read both generations make. */
  const ReadDate: GetItem := GetItem(Table, Key)

  /** An `UpdateItem` request: table, key, expression attribute values, update expression. */
  datatype Update = Update(table: string, key: map<string, int>, values: map<string, string>, expression: string)

  /** The update both generations send for a date rendered as `text`. */
  function SetDate(text: string): (u: Update)
    ensures u.table == Table && u.key == map["Id" := 1]
    ensures u.values == map[":r" := text] && u.expression == SetExpression
  {
    Update(Table, Key, map[":r" := text], SetExpression)
  }

  /** What the store does with a `set F = :r` request on an item: field `F`
      becomes the string bound to `:r`, every other attribute is kept.  Only
      the one expression shape the code sends is interpreted. */
  function Apply(item: Item, u: Update): (r: Item)
    ensures u.expression == SetExpression && ":r" in u.values ==>
              Field in r && r[Field] == Str(u.values[":r"])
    ensures forall a :: a != Field ==> (a in r <==> a in item)
    ensures forall a :: a != Field && a in item ==> r[a] == item[a]
    ensures !(u.expression == SetExpression && ":r" in u.values) ==> r == item
  {
    if u.expression == SetExpression && ":r" in u.values then item[Field := Str(u.values[":r"])]
    else item
  }

  /** The sent expression is the one `Apply` interprets. */
  lemma SetDateStoresText(item: Item, text: string)
    ensures Apply(item, SetDate(text))[Field] == Str(text)
  {
  }
}
