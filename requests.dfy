/** The request records that the poller fetches from the site's API and
    stores in its `requests` table. */
module Requests {

  datatype Option<+T> = None | Some(value: T)

  datatype Result<+T, +E> = Ok(value: T) | Err(error: E)

  /** One decoded JSON object of the API's answer. `id` is `None` when the
      object has no "id" key; `fields` holds its other keys, whose values
      are JSON strings. */
  datatype Record = Record(id: Option<int>, fields: map<string, string>)

  /** The display columns of one request: what the notification shows and
      what a row of the `requests` table holds besides its key. */
  datatype Row = Row(name: string, contact: string, text: string, datetime: string)

  /** The exceptions the modelled code can raise. */
  datatype Fault =
    | MissingKey(key: string)  // KeyError from `request[key]`
    | DuplicateId(id: int)     // integrity error of the PRIMARY KEY on insert
    | NoSuchTable              // the `requests` table was never created
    | IdOverflow(id: int)      // OverflowError binding an id outside SQLite's INTEGER range

  /** The display keys, in the order the code reads them (`name` first). */
  const RowKeys: seq<string> := ["name", "contact", "text", "datetime"]

  /** `k` is the first display key, in reading order, that `fields` lacks:
      the key a KeyError names. */
  ghost predicate IsFirstMissing(fields: map<string, string>, k: string)
  {
    exists i :: 0 <= i < |RowKeys| && RowKeys[i] == k && k !in fields &&
      forall j :: 0 <= j < i ==> RowKeys[j] in fields
  }

  /** Reads the four display fields in order, failing on the first absent one. */
  function ReadRow(r: Record): (res: Result<Row, string>)
    ensures res.Ok? <==> forall k :: k in RowKeys ==> k in r.fields
    ensures res.Ok? ==>
              && res.value.name == r.fields["name"] && res.value.contact == r.fields["contact"]
              && res.value.text == r.fields["text"] && res.value.datetime == r.fields["datetime"]
    ensures res.Err? ==> IsFirstMissing(r.fields, res.error)
  {
    if "name" !in r.fields then
      assert RowKeys[0] == "name";
      Err("name")
    else if "contact" !in r.fields then
      assert RowKeys[0] == "name" && RowKeys[1] == "contact";
      Err("contact")
    else if "text" !in r.fields then
      assert RowKeys[0] == "name" && RowKeys[1] == "contact" && RowKeys[2] == "text";
      Err("text")
    else if "datetime" !in r.fields then
      assert RowKeys[0] == "name" && RowKeys[1] == "contact" && RowKeys[2] == "text" && RowKeys[3] == "datetime";
      Err("datetime")
    else
      Ok(Row(r.fields["name"], r.fields["contact"], r.fields["text"], r.fields["datetime"]))
  }

  /** SQLite binds a Python int as a signed 64-bit INTEGER; any other value
      raises OverflowError before the statement runs. */
  const MinId: int := -0x8000_0000_0000_0000
  const MaxId: int := 0x7FFF_FFFF_FFFF_FFFF

  predicate FitsInteger(id: int)
  {
    MinId <= id <= MaxId
  }

  /** A record with an id that SQLite can bind and all four display fields. */
  predicate WellFormed(r: Record)
  {
    r.id.Some? && FitsInteger(r.id.value) && ReadRow(r).Ok?
  }
}
