/** The `requests` table: an append-only map from a request's id (its
    PRIMARY KEY) to its display columns. */
module Storage {
  import opened Requests

  /** What one INSERT of `r` does to the table's rows: the parameter tuple is
      built first (id, then the display fields, a KeyError on the first one
      absent), then the id is bound as a 64-bit INTEGER, then the PRIMARY KEY
      refuses an id already present. */
  function Insert(rows: map<int, Row>, r: Record): (res: Result<map<int, Row>, Fault>)
    ensures res.Ok? <==> WellFormed(r) && r.id.value !in rows
    ensures res.Ok? ==> res.value.Keys == rows.Keys + {r.id.value}
    ensures res.Ok? ==> res.value[r.id.value] == ReadRow(r).value
    ensures res.Ok? ==> forall k :: k in rows ==> res.value[k] == rows[k]
    ensures r.id.None? ==> res == Err(MissingKey("id"))
    ensures r.id.Some? && ReadRow(r).Err? ==> res.Err? && res.error.MissingKey?
                                              && IsFirstMissing(r.fields, res.error.key)
    ensures r.id.Some? && ReadRow(r).Ok? && !FitsInteger(r.id.value) ==> res == Err(IdOverflow(r.id.value))
    ensures WellFormed(r) && r.id.value in rows ==> res == Err(DuplicateId(r.id.value))
  {
    match r.id
    case None => Err(MissingKey("id"))
    case Some(id) =>
      match ReadRow(r)
      case Err(k) => Err(MissingKey(k))
      case Ok(row) =>
        if !FitsInteger(id) then Err(IdOverflow(id))
        else if id in rows then Err(DuplicateId(id))
        else Ok(rows[id := row])
  }

  /** The requests.db file: whether the table exists, and its rows. */
  class Ledger {
    var created: bool
    var rows: map<int, Row>

    /** Opens the database as found on disk: `None` when the table has not
        been created yet, otherwise its rows. */
    constructor (onDisk: Option<map<int, Row>>)
      ensures created == onDisk.Some?
      ensures rows == if onDisk.Some? then onDisk.value else map[]
    {
      created := onDisk.Some?;
      rows := if onDisk.Some? then onDisk.value else map[];
    }

    /** `init_db`: CREATE TABLE IF NOT EXISTS; existing rows stay as they are,
        so a second call changes nothing. */
    method InitDb()
      modifies this
      ensures created && rows == old(rows)
    {
      created := true;
    }

    /** `is_request_sent`: whether a row with this id exists. The statement
        is prepared (which needs the table) before the id is bound. */
    method IsRequestSent(id: int) returns (res: Result<bool, Fault>)
      ensures !created ==> res == Err(NoSuchTable)
      ensures created && !FitsInteger(id) ==> res == Err(IdOverflow(id))
      ensures created && FitsInteger(id) ==> res == Ok(id in rows)
    {
      if !created {
        return Err(NoSuchTable);
      }
      if !FitsInteger(id) {
        return Err(IdOverflow(id));
      }
      res := Ok(id in rows);
    }

    /** `save_request_to_db`: inserts one row, or raises and leaves the table
        as it was. The parameter tuple is built before the statement is
        prepared, so a missing key is reported even without the table. */
    method SaveRequest(r: Record) returns (res: Result<(), Fault>)
      modifies this
      ensures created == old(created)
      ensures r.id.None? || ReadRow(r).Err? ==> res == Err(Insert(old(rows), r).error) && rows == old(rows)
      ensures !old(created) && r.id.Some? && ReadRow(r).Ok? ==> res == Err(NoSuchTable) && rows == old(rows)
      ensures old(created) && Insert(old(rows), r).Ok? ==> res == Ok(()) && rows == Insert(old(rows), r).value
      ensures old(created) && Insert(old(rows), r).Err? ==>
                res == Err(Insert(old(rows), r).error) && rows == old(rows)
    {
      if r.id.None? || ReadRow(r).Err? {
        return Err(Insert(rows, r).error);
      }
      if !created {
        return Err(NoSuchTable);
      }
      var ins := Insert(rows, r);
      match ins
      case Err(f) =>
        res := Err(f);
      case Ok(next) =>
        rows := next;
        res := Ok(());
    }
  }

  /** Saving a request and asking for its id, as a client sees it. */
  method LedgerScenario(r: Record, other: int)
    requires WellFormed(r) && other != r.id.value && FitsInteger(other)
  {
    var ledger := new Ledger(None);
    var before := ledger.IsRequestSent(r.id.value);
    assert before == Err(NoSuchTable);
    var early := ledger.SaveRequest(Record(None, map[]));
    assert early == Err(MissingKey("id"));
    ledger.InitDb();
    ledger.InitDb();
    assert ledger.rows == map[];
    var saved := ledger.SaveRequest(r);
    assert saved == Ok(());
    var found := ledger.IsRequestSent(r.id.value);
    assert found == Ok(true);
    var missing := ledger.IsRequestSent(other);
    assert missing == Ok(false);
    var huge := ledger.IsRequestSent(MaxId + 1);
    assert huge == Err(IdOverflow(MaxId + 1));
    var again := ledger.SaveRequest(r);
    assert again == Err(DuplicateId(r.id.value));
    assert ledger.rows == map[r.id.value := ReadRow(r).value];
  }
}
