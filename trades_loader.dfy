/** The trades loader of `src/trades_tpe.py`.  `run` takes the operations
    fetched for one day, keeps the wanted columns that are there, converts
    them and keeps the rows with an id; `append_entity_data` appends to
    `operations` the rows whose id, as text, is not stored yet for that day;
    `batch` runs every business day of a fixed range and skips a day that
    raises. */
module TradesLoader {
  import opened Wrappers
  import opened Json
  import opened Civil
  import opened TradingCalendar
  import opened Frames
  import opened Batches

  const OperationsTable := "operations"
  const IdColumn := "id"
  const DateColumn := "date"

  /** The columns `run` keeps when present, in its order. */
  const DesiredColumns: seq<string> := [
    "id", "origin_id", "portfolio_id", "portfolio_name", "instrument_id",
    "date", "cash_settlement_date", "quantity", "instrument_symbol",
    "side_name", "unit_value", "brokerage_fee_gross_value",
    "total_financial_net", "executing_brokerage_fee_value",
    "brokerage_fee_net_value", "carrying_brokerage_fee_value",
    "brokerage_rebate_value", "total_emoluments_value", "emoluments_value",
    "settlement_fee_value", "book_name", "broker_name", "rebate_percent"
  ]

  const NumericColumns: seq<string> := [
    "quantity", "unit_value", "brokerage_fee_gross_value", "total_financial_net",
    "executing_brokerage_fee_value", "brokerage_fee_net_value",
    "carrying_brokerage_fee_value", "brokerage_rebate_value",
    "total_emoluments_value", "emoluments_value", "settlement_fee_value",
    "rebate_percent"
  ]

  const DateColumns: seq<string> := ["date", "cash_settlement_date"]

  const IdColumns: seq<string> := ["portfolio_id", "instrument_id", "origin_id"]

  /** The column lists `run` works with: the wanted ones, and those it
      converts to numbers, to dates and to `Int64`.  The proofs below hold
      for any lists; `run` uses `TradeColumns`. */
  datatype Columns = Columns(desired: seq<string>, numeric: seq<string>, dates: seq<string>, ids: seq<string>)

  const TradeColumns := Columns(DesiredColumns, NumericColumns, DateColumns, IdColumns)

  /** pandas' conversions as they change one cell: `to_numeric` and
      `to_datetime` with `errors="coerce"`, and `astype("Int64")`, which is
      `None` for a cell it cannot cast; and `date::date` of a stored
      timestamp, as the database computes it.  They are given, not
      modelled. */
  datatype Casts = Casts(
    numeric: Value -> Value,
    datetime: Value -> Value,
    int64: Value -> Option<Value>,
    day: Value -> Option<int>)

  // ----- append_entity_data -----

  /** `SELECT DISTINCT id ... WHERE date::date = data AND id IS NOT NULL`,
      each id then read as text. */
  function StoredIds(stored: seq<Row>, idColumn: string, data: int, day: Value -> Option<int>): set<string> {
    set r | r in stored && day(Cell(r, DateColumn)) == Some(data) && NotNull(r, idColumn) :: PyStr(Cell(r, idColumn))
  }

  /** `str(v)`, as a cell. */
  function AsText(v: Value): Value {
    Str(PyStr(v))
  }

  /** `df[id_column] = df[id_column].astype(str)`: the id cells become their
      text, and reading that text back gives the same text. */
  function TextIds(df: seq<Row>, idColumn: string): (r: seq<Row>)
    ensures |r| == |df|
    ensures forall i :: 0 <= i < |df| ==> TextOf(idColumn)(r[i]) == TextOf(idColumn)(df[i])
    ensures forall i, c :: 0 <= i < |df| && c != idColumn ==> Cell(r[i], c) == Cell(df[i], c)
    ensures forall i :: 0 <= i < |df| && NotNull(df[i], idColumn) ==> NotNull(r[i], idColumn)
  {
    MapColumn(df, idColumn, AsText)
  }

  /** The ids `append_entity_data` compares against: those stored for the
      day, or none when reading them fails. */
  function ExistingIds(stored: seq<Row>, idColumn: string, data: int, day: Value -> Option<int>, readOk: bool): set<string> {
    if readOk then StoredIds(stored, idColumn, data, day) else {}
  }

  /** `df[~df[id_column].isin(existing_ids)]`, after the ids became text. */
  function NewRows(df: seq<Row>, idColumn: string, existing: set<string>): seq<Row> {
    KeepNew(TextIds(df, idColumn), TextOf(idColumn), existing)
  }

  /** `append_entity_data(df, table, id_column, data)`: an empty batch
      writes nothing; a missing table gets the batch as it is, and a refused
      append raises; otherwise the new rows, if any, are appended, and a
      refused append is raised again. */
  function AppendEntity(tables: map<string, seq<Row>>, df: seq<Row>, table: string, idColumn: string,
                        data: int, day: Value -> Option<int>, readOk: bool, accepted: bool): Outcome<Row> {
    if df == [] then Outcome(tables, None)
    else if table !in tables then
      if accepted then Outcome(Appended(tables, table, df), None) else Outcome(tables, Some(DatabaseErrorRaised))
    else
      var rows := NewRows(df, idColumn, ExistingIds(tables[table], idColumn, data, day, readOk));
      if rows == [] then Outcome(tables, None)
      else if accepted then Outcome(Appended(tables, table, rows), None)
      else Outcome(tables, Some(DatabaseErrorRaised))
  }

  method AppendEntityData(db: Store<Row>, df: seq<Row>, table: string, idColumn: string,
                          data: int, day: Value -> Option<int>, readOk: bool, accepted: bool)
    returns (raised: Option<string>)
    modifies db
    ensures Outcome(db.tables, raised) == AppendEntity(old(db.tables), df, table, idColumn, data, day, readOk, accepted)
  {
    if df == [] {
      return None;
    }
    if !db.Exists(table) {
      var ok := db.Append(table, df, accepted);
      return if ok then None else Some(DatabaseErrorRaised);
    }
    var existing := ExistingIds(db.tables[table], idColumn, data, day, readOk);
    var rows := NewRows(df, idColumn, existing);
    if |rows| > 0 {
      var ok := db.Append(table, rows, accepted);
      if !ok {
        return Some(DatabaseErrorRaised);
      }
    }
    return None;
  }

  // ----- what the merge promises -----

  /** Once the table exists, the rows appended are exactly the batch rows,
      ids as text, whose id none of the day's stored rows has, in batch
      order; inserted plus skipped is the batch size. */
  lemma InsertsUnseenIds(tables: map<string, seq<Row>>, df: seq<Row>, table: string, idColumn: string,
                         data: int, day: Value -> Option<int>)
    requires table in tables && df != []
    ensures var existing := StoredIds(tables[table], idColumn, data, day);
      var rows := NewRows(df, idColumn, existing);
      && (forall i :: 0 <= i < |rows| ==> rows[i] in TextIds(df, idColumn) && TextOf(idColumn)(rows[i]) !in existing)
      && (forall i :: 0 <= i < |df| && TextOf(idColumn)(df[i]) !in existing ==> TextIds(df, idColumn)[i] in rows)
      && |rows| + |KeepKnown(TextIds(df, idColumn), TextOf(idColumn), existing)| == |df|
      && AppendEntity(tables, df, table, idColumn, data, day, true, true).tables[table] == tables[table] + rows
  {
    var existing := StoredIds(tables[table], idColumn, data, day);
    KeepNewCount(TextIds(df, idColumn), TextOf(idColumn), existing);
  }

  /** A missing table is created with the whole batch, ids as they came. */
  lemma MissingTableGetsBatch(tables: map<string, seq<Row>>, df: seq<Row>, table: string, idColumn: string,
                              data: int, day: Value -> Option<int>, readOk: bool)
    requires table !in tables && df != []
    ensures AppendEntity(tables, df, table, idColumn, data, day, readOk, true).tables
      == tables[table := df]
  {
    assert [] + df == df;
  }

  /** When no id of the batch is stored for the day (in particular when the
      read fails), every batch row is appended: ids repeated inside the batch
      are not collapsed. */
  lemma UnseenBatchInsertedWhole(tables: map<string, seq<Row>>, df: seq<Row>, table: string, idColumn: string,
                                 data: int, day: Value -> Option<int>, readOk: bool)
    requires table in tables && df != []
    requires forall i :: 0 <= i < |df| ==> TextOf(idColumn)(df[i]) !in ExistingIds(tables[table], idColumn, data, day, readOk)
    ensures AppendEntity(tables, df, table, idColumn, data, day, readOk, true).tables[table]
      == tables[table] + TextIds(df, idColumn)
  {
    KeepNewDisjoint(TextIds(df, idColumn), TextOf(idColumn), ExistingIds(tables[table], idColumn, data, day, readOk));
  }

  /** Rows stored for other days never keep a batch row out. */
  lemma OtherDaysDoNotCount(stored: seq<Row>, idColumn: string, data: int, day: Value -> Option<int>)
    requires forall r :: r in stored ==> day(Cell(r, DateColumn)) != Some(data)
    ensures StoredIds(stored, idColumn, data, day) == {}
  {
  }

  /** A write the database refuses raises and changes nothing. */
  lemma RefusedWriteRaises(tables: map<string, seq<Row>>, df: seq<Row>, table: string, idColumn: string,
                           data: int, day: Value -> Option<int>, readOk: bool)
    requires df != []
    requires table in tables ==> NewRows(df, idColumn, ExistingIds(tables[table], idColumn, data, day, readOk)) != []
    ensures AppendEntity(tables, df, table, idColumn, data, day, readOk, false) == Outcome(tables, Some(DatabaseErrorRaised))
  {
  }

  /** A stored row dated `data` with an id contributes that id. */
  lemma StoredIdOf(stored: seq<Row>, r: Row, idColumn: string, data: int, day: Value -> Option<int>)
    requires r in stored && day(Cell(r, DateColumn)) == Some(data) && NotNull(r, idColumn)
    ensures TextOf(idColumn)(r) in StoredIds(stored, idColumn, data, day)
  {
  }

  /** The ids of a batch dated `data` are found for that day once its rows,
      as written (`sent`), are stored. */
  lemma {:induction false} SentIdsFound(stored: seq<Row>, df: seq<Row>, sent: seq<Row>, idColumn: string,
                                        data: int, day: Value -> Option<int>, existing: set<string>)
    requires idColumn != DateColumn
    requires forall i :: 0 <= i < |df| ==> day(Cell(df[i], DateColumn)) == Some(data) && NotNull(df[i], idColumn)
    requires sent == df || sent == NewRows(df, idColumn, existing)
    ensures forall x :: x in sent ==> TextOf(idColumn)(x) in StoredIds(stored + sent, idColumn, data, day)
  {
    var t := TextIds(df, idColumn);
    forall x | x in sent
      ensures TextOf(idColumn)(x) in StoredIds(stored + sent, idColumn, data, day)
    {
      var j :| 0 <= j < |df| && (x == df[j] || x == t[j]);
      assert Cell(t[j], DateColumn) == Cell(df[j], DateColumn);
      StoredIdOf(stored + sent, x, idColumn, data, day);
    }
  }

  /** Stored rows stay stored: more rows only add ids. */
  lemma StoredIdsGrow(stored: seq<Row>, more: seq<Row>, idColumn: string, data: int, day: Value -> Option<int>)
    ensures StoredIds(stored, idColumn, data, day) <= StoredIds(stored + more, idColumn, data, day)
  {
    forall k | k in StoredIds(stored, idColumn, data, day)
      ensures k in StoredIds(stored + more, idColumn, data, day)
    {
      var r :| r in stored && day(Cell(r, DateColumn)) == Some(data) && NotNull(r, idColumn) && PyStr(Cell(r, idColumn)) == k;
      StoredIdOf(stored + more, r, idColumn, data, day);
    }
  }

  /** Read back after the table was created with a batch dated `data`, no
      batch row is new. */
  lemma AgainAfterCreate(df: seq<Row>, idColumn: string, data: int, day: Value -> Option<int>)
    requires idColumn != DateColumn
    requires forall i :: 0 <= i < |df| ==> day(Cell(df[i], DateColumn)) == Some(data) && NotNull(df[i], idColumn)
    ensures NewRows(df, idColumn, StoredIds(df, idColumn, data, day)) == []
  {
    SentIdsFound([], df, df, idColumn, data, day, {});
    assert [] + df == df;
    var t := TextIds(df, idColumn);
    var later := StoredIds(df, idColumn, data, day);
    forall i | 0 <= i < |t| ensures TextOf(idColumn)(t[i]) in later {
      assert df[i] in df;
    }
    KeepNewDisjoint(t, TextOf(idColumn), {});
    KeepNewSettles(t, TextOf(idColumn), {}, later);
  }

  /** Read back after the new rows of a batch dated `data` were stored, no
      batch row is new. */
  lemma AgainAfterNew(stored: seq<Row>, df: seq<Row>, idColumn: string, data: int, day: Value -> Option<int>,
                      existing: set<string>)
    requires idColumn != DateColumn
    requires forall i :: 0 <= i < |df| ==> day(Cell(df[i], DateColumn)) == Some(data) && NotNull(df[i], idColumn)
    requires existing <= StoredIds(stored, idColumn, data, day)
    ensures var rows := NewRows(df, idColumn, existing);
      NewRows(df, idColumn, StoredIds(stored + rows, idColumn, data, day)) == []
  {
    var rows := NewRows(df, idColumn, existing);
    SentIdsFound(stored, df, rows, idColumn, data, day, existing);
    var later := StoredIds(stored + rows, idColumn, data, day);
    StoredIdsGrow(stored, rows, idColumn, data, day);
    KeepNewSettles(TextIds(df, idColumn), TextOf(idColumn), existing, later);
  }

  /** Idempotence: merging a batch whose rows all lie on `data` and have an
      id, then merging it again for `data`, inserts nothing the second time. */
  lemma MergeTwiceInsertsNothing(tables: map<string, seq<Row>>, df: seq<Row>, table: string, idColumn: string,
                                 data: int, day: Value -> Option<int>, readOk: bool)
    requires idColumn != DateColumn
    requires forall i :: 0 <= i < |df| ==> day(Cell(df[i], DateColumn)) == Some(data) && NotNull(df[i], idColumn)
    ensures var once := AppendEntity(tables, df, table, idColumn, data, day, readOk, true);
      once.raised.None? && AppendEntity(once.tables, df, table, idColumn, data, day, true, true) == Outcome(once.tables, None)
  {
    if df != [] {
      if table !in tables {
        AgainAfterCreate(df, idColumn, data, day);
        var once := Appended(tables, table, df);
        assert once[table] == df;
        assert ExistingIds(once[table], idColumn, data, day, true) == StoredIds(df, idColumn, data, day);
      } else {
        var stored := tables[table];
        var existing := ExistingIds(stored, idColumn, data, day, readOk);
        var rows := NewRows(df, idColumn, existing);
        AgainAfterNew(stored, df, idColumn, data, day, existing);
        if rows == [] {
          assert stored + rows == stored;
        } else {
          var once := Appended(tables, table, rows);
          assert once[table] == stored + rows;
          assert ExistingIds(once[table], idColumn, data, day, true) == StoredIds(stored + rows, idColumn, data, day);
        }
      }
    }
  }

  // ----- run -----

  /** The conversion loops of `run`: `to_numeric` on the numeric columns,
      `to_datetime` on the date columns, then `astype("Int64")` on the id
      columns; the columns stay the same. */
  function Converted(casts: Casts, df: seq<Row>, numeric: seq<string>, dates: seq<string>, ids: seq<string>)
    : (r: Result<seq<Row>>)
    ensures r.Failure? ==> r.error == TypeErrorRaised
    ensures r.Success? ==> |r.value| == |df|
    ensures r.Success? ==> forall i, c :: 0 <= i < |df| ==> (HasKey(r.value[i], c) <==> HasKey(df[i], c))
  {
    CastColumns(MapColumns(MapColumns(df, numeric, casts.numeric), dates, casts.datetime), ids, casts.int64)
  }

  /** The frame of `run` before the id filter: the wanted columns that
      are there, converted; a cast that fails raises `TypeError`. */
  function Typed(casts: Casts, columns: Columns, records: seq<Row>): (r: Result<seq<Row>>)
    ensures r.Failure? ==> r.error == TypeErrorRaised
    ensures r.Success? ==> |r.value| == |records|
    ensures r.Success? ==> forall i, c :: 0 <= i < |records| ==>
      (HasKey(r.value[i], c) <==> c in AvailableColumns(records, columns.desired))
  {
    Converted(casts, Selected(records, AvailableColumns(records, columns.desired)),
              AvailableColumns(records, columns.numeric), AvailableColumns(records, columns.dates),
              AvailableColumns(records, columns.ids))
  }

  /** The frame of `run` up to the merge: the converted frame's rows with an
      id.  Without an `id` column, `df["id"]` raises `KeyError`. */
  function Operations(casts: Casts, columns: Columns, records: seq<Row>): (r: Result<seq<Row>>)
    ensures r.Failure? ==> r.error == TypeErrorRaised || r.error == KeyErrorRaised
    ensures r.Success? ==> forall i :: 0 <= i < |r.value| ==> NotNull(r.value[i], IdColumn)
    ensures r.Success? ==> forall i, c :: 0 <= i < |r.value| ==>
      (HasKey(r.value[i], c) <==> c in AvailableColumns(records, columns.desired))
  {
    match Typed(casts, columns, records)
    case Failure(e) => Failure(e)
    case Success(typed) =>
      var cols := AvailableColumns(records, columns.desired);
      if IdColumn !in cols then Failure(KeyErrorRaised)
      else
        IdentifiedRows(typed, cols);
        Success(Filter(typed, NotNullIn(IdColumn)))
  }

  /** `df[df["id"].notnull()]` keeps the columns and only rows with an id. */
  lemma IdentifiedRows(typed: seq<Row>, cols: seq<string>)
    requires forall i, c :: 0 <= i < |typed| ==> (HasKey(typed[i], c) <==> c in cols)
    ensures var ops := Filter(typed, NotNullIn(IdColumn));
      forall i :: 0 <= i < |ops| ==> NotNull(ops[i], IdColumn) && forall c :: HasKey(ops[i], c) <==> c in cols
  {
    var ops := Filter(typed, NotNullIn(IdColumn));
    forall i | 0 <= i < |ops|
      ensures NotNull(ops[i], IdColumn) && forall c :: HasKey(ops[i], c) <==> c in cols
    {
      assert NotNullIn(IdColumn)(ops[i]);
      var j :| 0 <= j < |typed| && typed[j] == ops[i];
    }
  }

  /** `run(data)` on what the API returned: an exception from fetching is
      the day's exception; an empty frame writes nothing. */
  function Run(casts: Casts, columns: Columns, fetched: Result<seq<Row>>, data: int,
               tables: map<string, seq<Row>>, readOk: bool, accepted: bool): Outcome<Row> {
    match fetched
    case Failure(e) => Outcome(tables, Some(e))
    case Success(records) =>
      if EmptyFrame(records) then Outcome(tables, None)
      else match Operations(casts, columns, records)
        case Failure(e) => Outcome(tables, Some(e))
        case Success(ops) => AppendEntity(tables, ops, OperationsTable, IdColumn, data, casts.day, readOk, accepted)
  }

  method RunDay(db: Store<Row>, casts: Casts, columns: Columns, fetched: Result<seq<Row>>, data: int, readOk: bool, accepted: bool)
    returns (raised: Option<string>)
    modifies db
    ensures Outcome(db.tables, raised) == Run(casts, columns, fetched, data, old(db.tables), readOk, accepted)
  {
    if fetched.Failure? {
      return Some(fetched.error);
    }
    var records := fetched.value;
    if EmptyFrame(records) {
      return None;
    }
    var cols := AvailableColumns(records, columns.desired);
    var df := Selected(records, cols);
    df := ConvertColumns(df, AvailableColumns(records, columns.numeric), casts.numeric);
    df := ConvertColumns(df, AvailableColumns(records, columns.dates), casts.datetime);
    var typed := CastEachColumn(df, AvailableColumns(records, columns.ids), casts.int64);
    if typed.Failure? {
      return Some(typed.error);
    }
    if IdColumn !in cols {
      return Some(KeyErrorRaised);
    }
    var ops := Filter(typed.value, NotNullIn(IdColumn));
    raised := AppendEntityData(db, ops, OperationsTable, IdColumn, data, casts.day, readOk, accepted);
  }

  // ----- what run promises -----

  /** A merge that raises leaves the database as it was; one that does
      not only appends, and only to its own table. */
  lemma AppendEntityGrows(tables: map<string, seq<Row>>, df: seq<Row>, table: string, idColumn: string,
                          data: int, day: Value -> Option<int>, readOk: bool, accepted: bool)
    ensures var o := AppendEntity(tables, df, table, idColumn, data, day, readOk, accepted);
      && (o.raised.Some? ==> o.tables == tables)
      && Grows(tables, o.tables)
      && forall t :: t != table ==> (t in o.tables <==> t in tables) && (t in tables ==> o.tables[t] == tables[t])
  {
    var o := AppendEntity(tables, df, table, idColumn, data, day, readOk, accepted);
    if o.tables != tables {
      var rows := if table in tables then NewRows(df, idColumn, ExistingIds(tables[table], idColumn, data, day, readOk)) else df;
      assert o.tables == Appended(tables, table, rows);
    }
  }

  /** The rows a merge appends all have an id when the batch's rows do. */
  lemma AppendEntityIdentified(tables: map<string, seq<Row>>, df: seq<Row>, table: string, idColumn: string,
                               data: int, day: Value -> Option<int>, readOk: bool, accepted: bool)
    requires table in tables
    requires forall i :: 0 <= i < |df| ==> NotNull(df[i], idColumn)
    ensures var after := AppendEntity(tables, df, table, idColumn, data, day, readOk, accepted).tables;
      table in after && forall i :: |tables[table]| <= i < |after[table]| ==> NotNull(after[table][i], idColumn)
  {
    var after := AppendEntity(tables, df, table, idColumn, data, day, readOk, accepted).tables;
    if df != [] {
      var rows := NewRows(df, idColumn, ExistingIds(tables[table], idColumn, data, day, readOk));
      forall i | 0 <= i < |rows| ensures NotNull(rows[i], idColumn) {
        var j :| 0 <= j < |df| && rows[i] == TextIds(df, idColumn)[j];
      }
      if after != tables {
        assert after[table] == tables[table] + rows;
      }
    }
  }

  /** `run` either raises before writing, writes nothing, or merges the
      operations it prepared. */
  lemma RunMerges(casts: Casts, columns: Columns, fetched: Result<seq<Row>>, data: int,
                  tables: map<string, seq<Row>>, readOk: bool, accepted: bool)
    ensures var o := Run(casts, columns, fetched, data, tables, readOk, accepted);
      || o.tables == tables
      || (&& fetched.Success? && Operations(casts, columns, fetched.value).Success?
          && o == AppendEntity(tables, Operations(casts, columns, fetched.value).value, OperationsTable, IdColumn,
                               data, casts.day, readOk, accepted))
  {
  }

  /** A day that raises leaves the database as it was. */
  lemma RaisingRunWritesNothing(casts: Casts, columns: Columns, fetched: Result<seq<Row>>, data: int,
                                tables: map<string, seq<Row>>, readOk: bool, accepted: bool)
    requires Run(casts, columns, fetched, data, tables, readOk, accepted).raised.Some?
    ensures Run(casts, columns, fetched, data, tables, readOk, accepted).tables == tables
  {
    RunMerges(casts, columns, fetched, data, tables, readOk, accepted);
    if fetched.Success? && Operations(casts, columns, fetched.value).Success? {
      AppendEntityGrows(tables, Operations(casts, columns, fetched.value).value, OperationsTable, IdColumn,
                        data, casts.day, readOk, accepted);
    }
  }

  /** `run` only appends, and only to `operations`. */
  lemma RunGrows(casts: Casts, columns: Columns, fetched: Result<seq<Row>>, data: int,
                 tables: map<string, seq<Row>>, readOk: bool, accepted: bool)
    ensures var after := Run(casts, columns, fetched, data, tables, readOk, accepted).tables;
      Grows(tables, after) && forall t :: t != OperationsTable ==> (t in after <==> t in tables)
  {
    RunMerges(casts, columns, fetched, data, tables, readOk, accepted);
    if fetched.Success? && Operations(casts, columns, fetched.value).Success? {
      AppendEntityGrows(tables, Operations(casts, columns, fetched.value).value, OperationsTable, IdColumn,
                        data, casts.day, readOk, accepted);
    }
  }

  /** Every row `run` appends has an id. */
  lemma RunAppendsIdentifiedRows(casts: Casts, columns: Columns, fetched: Result<seq<Row>>, data: int,
                                 tables: map<string, seq<Row>>, readOk: bool, accepted: bool)
    requires OperationsTable in tables
    ensures var after := Run(casts, columns, fetched, data, tables, readOk, accepted).tables;
      OperationsTable in after
      && forall i :: |tables[OperationsTable]| <= i < |after[OperationsTable]| ==> NotNull(after[OperationsTable][i], IdColumn)
  {
    RunMerges(casts, columns, fetched, data, tables, readOk, accepted);
    if fetched.Success? && Operations(casts, columns, fetched.value).Success? {
      AppendEntityIdentified(tables, Operations(casts, columns, fetched.value).value, OperationsTable, IdColumn,
                             data, casts.day, readOk, accepted);
    }
  }

  /** Run twice for the same day, on operations that all lie on that day,
      the second run inserts nothing. */
  lemma RunTwiceInsertsNothing(casts: Casts, columns: Columns, fetched: Result<seq<Row>>, data: int,
                               tables: map<string, seq<Row>>, readOk: bool)
    requires fetched.Success? && Operations(casts, columns, fetched.value).Success?
    requires var ops := Operations(casts, columns, fetched.value).value;
      forall i :: 0 <= i < |ops| ==> casts.day(Cell(ops[i], DateColumn)) == Some(data)
    ensures var once := Run(casts, columns, fetched, data, tables, readOk, true);
      once.raised.None? && Run(casts, columns, fetched, data, once.tables, true, true) == Outcome(once.tables, None)
  {
    if !EmptyFrame(fetched.value) {
      MergeTwiceInsertsNothing(tables, Operations(casts, columns, fetched.value).value, OperationsTable, IdColumn,
                               data, casts.day, readOk);
    }
  }

  // ----- batch -----

  /** What the outside world answers on each day: the fetched records (or
      the exception fetching raised), whether reading the stored ids works,
      and whether the database takes an append. */
  datatype Env = Env(fetched: int -> Result<seq<Row>>, readOk: int -> bool, accepted: int -> bool)

  /** One day of `batch`. */
  function Step(casts: Casts, columns: Columns, env: Env): (map<string, seq<Row>>, int) -> Outcome<Row> {
    (tables, d) => Run(casts, columns, env.fetched(d), d, tables, env.readOk(d), env.accepted(d))
  }

  const BatchFirst := DayNumber(Date(2020, 1, 1))
  const BatchLast := DayNumber(Date(2025, 8, 26))

  /** `batch()`: `run` on each business day of the range, in order; a day
      that raises is skipped and the loop goes on. */
  method Batch(db: Store<Row>, casts: Casts, env: Env) returns (failed: seq<int>)
    modifies db
    ensures BatchOutcome(db.tables, failed)
      == RunIsolated(Step(casts, TradeColumns, env), old(db.tables), BusinessDaysInRange(BatchFirst, BatchLast))
  {
    failed := RunDays(db, casts, env, BusinessDaysInRange(BatchFirst, BatchLast));
  }

  /** The loop of `batch`: each day runs in turn, and a day that raises is
      recorded and the loop goes on. */
  method RunDays(db: Store<Row>, casts: Casts, env: Env, days: seq<int>) returns (failed: seq<int>)
    modifies db
    ensures BatchOutcome(db.tables, failed) == RunIsolated(Step(casts, TradeColumns, env), old(db.tables), days)
  {
    ghost var step := Step(casts, TradeColumns, env);
    failed := [];
    for k := 0 to |days|
      invariant BatchOutcome(db.tables, failed) == RunIsolated(step, old(db.tables), days[..k])
    {
      IsolatedNext(step, old(db.tables), days, k);
      var d := days[k];
      var raised := RunDay(db, casts, TradeColumns, env.fetched(d), d, env.readOk(d), env.accepted(d));
      if raised.Some? {
        failed := failed + [d];
      }
    }
    assert days[..|days|] == days;
  }

  /** `batch` only appends, and a day that raises changes nothing. */
  lemma BatchGrows(casts: Casts, columns: Columns, env: Env, tables: map<string, seq<Row>>, days: seq<int>)
    ensures Grows(tables, RunIsolated(Step(casts, columns, env), tables, days).tables)
  {
    forall t, d ensures Grows(t, Step(casts, columns, env)(t, d).tables) {
      RunGrows(casts, columns, env.fetched(d), d, t, env.readOk(d), env.accepted(d));
    }
    IsolatedGrows(Step(casts, columns, env), tables, days);
  }
}
