/** The durable store: the `url` table of internal/storage/postgres/postgres.go.

    The table is created as
      url(id SERIAL PRIMARY KEY, alias TEXT NOT NULL UNIQUE, url TEXT NOT NULL).
    Here it is a map from alias to row, so the UNIQUE constraint on alias is
    structural, and the SERIAL column is a counter `nextId`, the next value of
    the column's sequence. What the database server does besides reading and
    writing the table (a statement that cannot be prepared, a broken
    connection) is the DbFault parameter of each operation. */
module Postgres {
  import opened Errors

  /** SERIAL is a 4-byte integer backed by a sequence that starts at 1 and
      stops with an error after 2^31 - 1. */
  const MaxSerial: int := 0x7FFF_FFFF

  const SaveOp: string := "storage.postgres.SaveURL"
  const GetOp: string := "storage.postgres.GetURL"
  const SequenceExhausted: string := "nextval: reached maximum value of sequence"

  datatype Row = Row(id: int, url: string)

  /** The table's rows by alias, and the next value of the id sequence. */
  datatype Table = Table(rows: map<string, Row>, nextId: int)

  /** A failure of the server on the next statement that does not depend on
      the table's contents. */
  datatype DbFault = NoFault | PrepareFails(msg: string) | QueryFails(msg: string)

  /** Result of SaveURL: Go's (int64, error) pair and the table afterwards. */
  datatype Inserted = Inserted(id: int, err: Option<Error>, table: Table)

  /** The schema as an invariant: every id was drawn from the sequence, so it
      is positive and below the sequence's next value, and ids are a PRIMARY
      KEY, so no two aliases share one. */
  ghost predicate Schema(t: Table)
    ensures Schema(t) ==> forall a :: a in t.rows ==> 1 <= t.rows[a].id <= MaxSerial
  {
    1 <= t.nextId <= MaxSerial + 1 &&
    (forall a :: a in t.rows ==> 1 <= t.rows[a].id < t.nextId) &&
    (forall a, b :: a in t.rows && b in t.rows && t.rows[a].id == t.rows[b].id ==> a == b)
  }

  /** The mapping the table stores, alias to URL. */
  function Urls(t: Table): (m: map<string, string>)
    ensures m.Keys == t.rows.Keys
    ensures forall a :: a in m ==> m[a] == t.rows[a].url
  {
    map a | a in t.rows :: t.rows[a].url
  }

  /** INSERT INTO url(url, alias) VALUES($1, $2) RETURNING id.
      The sequence is advanced before the UNIQUE constraint is checked, and a
      value it hands out is never given back, so an insert that violates the
      constraint still uses up an id. */
  function Insert(t: Table, urlToSave: string, alias: string, fault: DbFault): (r: Inserted)
    ensures r.err.None? <==> fault.NoFault? && t.nextId <= MaxSerial && alias !in t.rows
    ensures r.err.Some? ==> r.id == 0 && r.table.rows == t.rows && r.err.value.Wrapped?
    ensures r.err.Some? ==>
      (Is(r.err.value, ErrURLExists) <==> fault.NoFault? && t.nextId <= MaxSerial && alias in t.rows)
    ensures r.err.Some? ==> !Is(r.err.value, ErrURLNotFound)
    ensures r.err.None? ==> alias in r.table.rows && r.table.rows[alias] == Row(r.id, urlToSave)
  {
    if fault.PrepareFails? then
      Inserted(0, Some(Wrapped(SaveOp, Fault(fault.msg))), t)
    else if fault.QueryFails? then
      Inserted(0, Some(Wrapped(SaveOp, Fault(fault.msg))), t)
    else if t.nextId > MaxSerial then
      Inserted(0, Some(Wrapped(SaveOp, Fault(SequenceExhausted))), t)
    else if alias in t.rows then
      // pq error code 23505, unique_violation
      Inserted(0, Some(Wrapped(SaveOp, ErrURLExists)), Table(t.rows, t.nextId + 1))
    else
      Inserted(t.nextId, None, Table(t.rows[alias := Row(t.nextId, urlToSave)], t.nextId + 1))
  }

  /** SELECT url FROM url WHERE alias = $1 */
  function Select(t: Table, alias: string, fault: DbFault): (r: Result<string>)
    ensures r.Ok? <==> fault.NoFault? && alias in t.rows
    ensures r.Ok? ==> r.value == Urls(t)[alias]
    ensures r == Err(ErrURLNotFound) <==> fault.NoFault? && alias !in t.rows
    ensures r.Err? && r.error != ErrURLNotFound ==> r.error.Wrapped? && !Is(r.error, ErrURLNotFound)
  {
    if fault.PrepareFails? then
      Err(Wrapped(GetOp + ": prepare statement", Fault(fault.msg)))
    else if fault.QueryFails? then
      Err(Wrapped(GetOp + ": execute statement", Fault(fault.msg)))
    else if alias in t.rows then
      Ok(t.rows[alias].url)
    else
      Err(ErrURLNotFound)  // sql.ErrNoRows, returned unwrapped
  }

  /** Inserting keeps the schema's constraints. */
  lemma InsertKeepsSchema(t: Table, urlToSave: string, alias: string, fault: DbFault)
    requires Schema(t)
    ensures Schema(Insert(t, urlToSave, alias, fault).table)
  {
  }

  /** A successful insert adds exactly the mapping alias -> url, under an id
      larger than every id already in the table, and the sequence moves past it. */
  lemma InsertAddsOneRow(t: Table, urlToSave: string, alias: string)
    requires Schema(t) && alias !in t.rows && t.nextId <= MaxSerial
    ensures var r := Insert(t, urlToSave, alias, NoFault);
      r.err.None? &&
      r.table.rows == t.rows[alias := Row(r.id, urlToSave)] &&
      Urls(r.table) == Urls(t)[alias := urlToSave] &&
      r.id == t.nextId && 1 <= r.id && r.table.nextId == r.id + 1 &&
      (forall a :: a in t.rows ==> t.rows[a].id < r.id)
  {
    var r := Insert(t, urlToSave, alias, NoFault);
    assert Urls(r.table) == Urls(t)[alias := urlToSave];
  }

  /** Saving under an alias that is already taken fails with ErrURLExists,
      returns id 0 and leaves the rows as they were. */
  lemma InsertTakenAliasFails(t: Table, urlToSave: string, alias: string)
    requires alias in t.rows && t.nextId <= MaxSerial
    ensures var r := Insert(t, urlToSave, alias, NoFault);
      r.err.Some? && Is(r.err.value, ErrURLExists) && r.id == 0 && Urls(r.table) == Urls(t)
  {
  }

  /** Round trip: a URL saved under an alias is what a lookup of that alias
      returns afterwards; saving again under the same alias fails and the
      lookup still returns the first URL. */
  lemma SaveThenGet(t: Table, u: string, u2: string, alias: string)
    requires Schema(t) && alias !in t.rows && t.nextId < MaxSerial
    ensures var first := Insert(t, u, alias, NoFault);
      var second := Insert(first.table, u2, alias, NoFault);
      first.err.None? && Select(first.table, alias, NoFault) == Ok(u) &&
      second.err.Some? && Is(second.err.value, ErrURLExists) &&
      Select(second.table, alias, NoFault) == Ok(u)
  {
    InsertAddsOneRow(t, u, alias);
  }

  class Storage {
    var rows: map<string, Row>
    var nextId: int

    ghost predicate Valid()
      reads this
    {
      Schema(State())
    }

    function State(): Table
      reads this
    {
      Table(rows, nextId)
    }

    /** A freshly created, empty `url` table. */
    constructor ()
      ensures Valid() && rows == map[] && nextId == 1
    {
      rows := map[];
      nextId := 1;
    }

    /** The table as CREATE TABLE IF NOT EXISTS finds it on a restart: the
        rows and the sequence a previous run left behind. */
    constructor Reopen(existing: Table)
      requires Schema(existing)
      ensures Valid() && State() == existing
    {
      rows := existing.rows;
      nextId := existing.nextId;
    }

    method SaveURL(urlToSave: string, alias: string, fault: DbFault) returns (id: int, err: Option<Error>)
      requires Valid()
      modifies this
      ensures Valid()
      ensures Inserted(id, err, State()) == Insert(old(State()), urlToSave, alias, fault)
    {
      InsertKeepsSchema(State(), urlToSave, alias, fault);
      if fault.PrepareFails? {
        return 0, Some(Wrapped(SaveOp, Fault(fault.msg)));
      }
      if fault.QueryFails? {
        return 0, Some(Wrapped(SaveOp, Fault(fault.msg)));
      }
      if nextId > MaxSerial {
        return 0, Some(Wrapped(SaveOp, Fault(SequenceExhausted)));
      }
      var newId := nextId;
      nextId := nextId + 1;
      if alias in rows {
        return 0, Some(Wrapped(SaveOp, ErrURLExists));
      }
      rows := rows[alias := Row(newId, urlToSave)];
      return newId, None;
    }

    method GetURL(alias: string, fault: DbFault) returns (r: Result<string>)
      ensures r == Select(State(), alias, fault)
      ensures r.Ok? ==> alias in rows && r.value == rows[alias].url
    {
      if fault.PrepareFails? {
        return Err(Wrapped(GetOp + ": prepare statement", Fault(fault.msg)));
      }
      if fault.QueryFails? {
        return Err(Wrapped(GetOp + ": execute statement", Fault(fault.msg)));
      }
      if alias !in rows {
        return Err(ErrURLNotFound);
      }
      return Ok(rows[alias].url);
    }
  }
}
