/** The fund P&L loader of `src/plfund.py`.  `run` fetches the prices of
    one day; when every required column is there it keeps those columns,
    keeps the rows from the chosen pricing sources, converts them, and
    merges the rows that have an id into `fund_pls` with the whole-table id
    merge of `EntityMerge`.  `batch` runs every business day of a fixed
    range and stops at the first day that raises. */
module PlFundLoader {
  import opened Wrappers
  import opened Json
  import opened Civil
  import opened TradingCalendar
  import opened Frames
  import opened Batches
  import opened EntityMerge

  const FundPlsTable := "fund_pls"
  const IdColumn := "id"
  const SourceColumn := "source_id"
  const InstrumentColumn := "instrument_id"

  /** The columns `run` insists on, and keeps, in this order. */
  const RequiredColumns: seq<string> := ["instrument", "id", "instrument_id", "date", "fund_pl", "source_id"]

  const NumericColumns: seq<string> := ["fund_pl"]
  const DateColumns: seq<string> := ["date"]

  /** The column lists `run` works with: the required ones, and those it
      converts to numbers and to dates.  The proofs below hold for any lists
      that keep the source column; `run` uses `PlColumns`. */
  datatype Columns = Columns(required: seq<string>, numeric: seq<string>, dates: seq<string>)

  const PlColumns := Columns(RequiredColumns, NumericColumns, DateColumns)

  /** The pricing sources whose rows are kept. */
  const SourceIds: seq<int> := [15, 11, 7, 33]

  // ----- the frame -----

  /** `df["source_id"].isin([15, 11, 7, 33])` at one row. */
  predicate FromKeptSource(row: Row) {
    Cell(row, SourceColumn).Int? && Cell(row, SourceColumn).i in SourceIds
  }

  /** `df[required_columns]` and then its rows from a kept source, in the
      order they came. */
  function Kept(columns: Columns, records: seq<Row>): seq<Row> {
    Filter(Selected(records, columns.required), FromKeptSource)
  }

  /** The rows kept are the records from a kept source, cut down to the
      required columns: all of them, and no others. */
  lemma KeptRows(columns: Columns, records: seq<Row>)
    requires SourceColumn in columns.required
    ensures var r := Kept(columns, records);
      && (forall i :: 0 <= i < |r| ==> FromKeptSource(r[i]) && r[i] in Selected(records, columns.required))
      && (forall i :: 0 <= i < |records| && FromKeptSource(records[i]) ==> Selected(records, columns.required)[i] in r)
      && (forall i :: 0 <= i < |records| ==>
            (FromKeptSource(Selected(records, columns.required)[i]) <==> FromKeptSource(records[i])))
  {
    var sel := Selected(records, columns.required);
    forall i | 0 <= i < |records| ensures FromKeptSource(sel[i]) <==> FromKeptSource(records[i]) {
      ProjectCell(records[i], columns.required, SourceColumn);
    }
  }

  /** The conversions of `run`: `to_numeric` on `fund_pl`, `to_datetime` on
      `date`, `astype("Int64")` on `instrument_id`, which raises `TypeError`
      on a cell it cannot cast.  The source of a row is left alone. */
  function Prepared(conv: Conversions, columns: Columns, records: seq<Row>): (r: Result<seq<Row>>)
    ensures r.Failure? ==> r.error == TypeErrorRaised
    ensures r.Success? && SourceColumn !in columns.numeric && SourceColumn !in columns.dates ==>
      forall i :: 0 <= i < |r.value| ==> FromKeptSource(r.value[i])
  {
    CastColumn(MapColumns(MapColumns(Kept(columns, records), columns.numeric, conv.numeric), columns.dates, conv.datetime),
               InstrumentColumn, conv.int64)
  }

  method Prepare(conv: Conversions, columns: Columns, records: seq<Row>) returns (r: Result<seq<Row>>)
    ensures r == Prepared(conv, columns, records)
  {
    var df := Selected(records, columns.required);
    df := Filter(df, FromKeptSource);
    df := ConvertColumns(df, columns.numeric, conv.numeric);
    df := ConvertColumns(df, columns.dates, conv.datetime);
    r := CastColumn(df, InstrumentColumn, conv.int64);
  }

  /** A row that is merged comes from a kept source and has an id. */
  predicate Mergeable(row: Row) {
    FromKeptSource(row) && NotNull(row, IdColumn)
  }

  /** Of a frame whose rows all come from a kept source, the rows sent to
      the merge are all mergeable. */
  lemma SentRowsMergeable(df: seq<Row>)
    ensures (forall i :: 0 <= i < |df| ==> FromKeptSource(df[i])) ==>
      var pls := Filter(df, NotNullIn(IdColumn));
      forall i :: 0 <= i < |pls| ==> Mergeable(pls[i])
  {
    var pls := Filter(df, NotNullIn(IdColumn));
    if forall i :: 0 <= i < |df| ==> FromKeptSource(df[i]) {
      forall i | 0 <= i < |pls| ensures Mergeable(pls[i]) {
        assert NotNullIn(IdColumn)(pls[i]);
        var j :| 0 <= j < |df| && df[j] == pls[i];
      }
    }
  }

  /** What `run` makes of the fetched records before it touches the
      database: `Success(None)` when it writes nothing (an empty frame, a
      required column missing, no row left after the source filter), the
      conversion's exception, or the rows with an id to merge. */
  function Load(conv: Conversions, columns: Columns, records: seq<Row>): (r: Result<Option<seq<Row>>>)
    ensures r.Failure? ==> r.error == TypeErrorRaised
    ensures r.Success? && r.value.Some? && SourceColumn !in columns.numeric && SourceColumn !in columns.dates ==>
      forall i :: 0 <= i < |r.value.value| ==> Mergeable(r.value.value[i])
  {
    if EmptyFrame(records) || MissingColumns(records, columns.required) != [] then Success(None)
    else match Prepared(conv, columns, records)
      case Failure(e) => Failure(e)
      case Success(df) =>
        SentRowsMergeable(df);
        if df == [] then Success(None) else Success(Some(Filter(df, NotNullIn(IdColumn))))
  }

  method LoadDay(conv: Conversions, columns: Columns, records: seq<Row>) returns (r: Result<Option<seq<Row>>>)
    ensures r == Load(conv, columns, records)
  {
    if EmptyFrame(records) {
      return Success(None);
    }
    var missing := MissingColumns(records, columns.required);
    if |missing| > 0 {
      return Success(None);
    }
    var typed := Prepare(conv, columns, records);
    if typed.Failure? {
      return Failure(typed.error);
    }
    var df := typed.value;
    if |df| == 0 {
      return Success(None);
    }
    return Success(Some(Filter(df, NotNullIn(IdColumn))));
  }

  /** `run(data)` on what the API returned: an exception from fetching or
      converting is the day's exception; otherwise the rows `Load` gives,
      if any, are merged into `fund_pls`. */
  function Run(conv: Conversions, columns: Columns, fetched: Result<seq<Row>>, tables: map<string, seq<Row>>,
               readOk: bool, accepted: bool): Outcome<Row> {
    match fetched
    case Failure(e) => Outcome(tables, Some(e))
    case Success(records) =>
      match Load(conv, columns, records)
      case Failure(e) => Outcome(tables, Some(e))
      case Success(None) => Outcome(tables, None)
      case Success(Some(pls)) => AppendEntity(tables, pls, FundPlsTable, IdColumn, readOk, accepted)
  }

  method RunDay(db: Store<Row>, conv: Conversions, columns: Columns, fetched: Result<seq<Row>>, readOk: bool, accepted: bool)
    returns (raised: Option<string>)
    modifies db
    ensures Outcome(db.tables, raised) == Run(conv, columns, fetched, old(db.tables), readOk, accepted)
  {
    if fetched.Failure? {
      return Some(fetched.error);
    }
    var loaded := LoadDay(conv, columns, fetched.value);
    if loaded.Failure? {
      return Some(loaded.error);
    }
    if loaded.value.None? {
      return None;
    }
    raised := AppendEntityData(db, loaded.value.value, FundPlsTable, IdColumn, readOk, accepted);
  }

  // ----- what run promises -----

  /** A frame without one of the required columns writes nothing and raises
      nothing. */
  lemma MissingColumnWritesNothing(conv: Conversions, records: seq<Row>, tables: map<string, seq<Row>>,
                                   readOk: bool, accepted: bool, c: string)
    requires c in RequiredColumns && !HasColumn(records, c)
    ensures Run(conv, PlColumns, Success(records), tables, readOk, accepted) == Outcome(tables, None)
  {
    assert c in MissingColumns(records, RequiredColumns);
  }

  /** When no record comes from a kept source, nothing is written and
      nothing raised. */
  lemma NoKeptSourceWritesNothing(conv: Conversions, columns: Columns, records: seq<Row>, tables: map<string, seq<Row>>,
                                  readOk: bool, accepted: bool)
    requires SourceColumn in columns.required
    requires forall i :: 0 <= i < |records| ==> !FromKeptSource(records[i])
    ensures Run(conv, columns, Success(records), tables, readOk, accepted) == Outcome(tables, None)
  {
    KeptRows(columns, records);
    FilterNone(Selected(records, columns.required), FromKeptSource);
  }

  /** `run` only appends, only to `fund_pls`, and every row it appends to a
      `fund_pls` that was there comes from a kept source and has an id. */
  lemma RunAppendsMergeableRows(conv: Conversions, columns: Columns, fetched: Result<seq<Row>>,
                                tables: map<string, seq<Row>>, readOk: bool, accepted: bool)
    requires SourceColumn !in columns.numeric && SourceColumn !in columns.dates
    ensures var after := Run(conv, columns, fetched, tables, readOk, accepted).tables;
      && Grows(tables, after)
      && (forall t :: t != FundPlsTable ==> (t in after <==> t in tables) && (t in tables ==> after[t] == tables[t]))
      && (FundPlsTable in tables ==>
            forall i :: |tables[FundPlsTable]| <= i < |after[FundPlsTable]| ==> Mergeable(after[FundPlsTable][i]))
  {
    if fetched.Success? && Load(conv, columns, fetched.value).Success? && Load(conv, columns, fetched.value).value.Some? {
      var pls := Load(conv, columns, fetched.value).value.value;
      AppendEntityGrows(tables, pls, FundPlsTable, IdColumn, readOk, accepted);
      if FundPlsTable in tables {
        AppendEntityFrom(tables, pls, FundPlsTable, IdColumn, readOk, accepted, Mergeable);
      }
    }
  }

  /** Run twice on the same records, the second run inserts nothing and
      raises nothing, whatever the database would say to an append. */
  lemma RunTwiceInsertsNothing(conv: Conversions, columns: Columns, fetched: Result<seq<Row>>,
                               tables: map<string, seq<Row>>, readOk: bool, accepted: bool, acceptedAgain: bool)
    requires Run(conv, columns, fetched, tables, readOk, accepted).raised.None?
    ensures var once := Run(conv, columns, fetched, tables, readOk, accepted).tables;
      Run(conv, columns, fetched, once, true, acceptedAgain) == Outcome(once, None)
  {
    if Load(conv, columns, fetched.value).value.Some? {
      var pls := Load(conv, columns, fetched.value).value.value;
      var once := Run(conv, columns, fetched, tables, readOk, accepted).tables;
      MergeTwiceInsertsNothing(tables, once, pls, FundPlsTable, IdColumn, readOk, accepted, acceptedAgain);
    }
  }

  // ----- batch -----

  /** What the outside world answers on each day: the fetched records (or
      the exception fetching raised), whether reading `fund_pls` works, and
      whether the database takes an append. */
  datatype Env = Env(fetched: int -> Result<seq<Row>>, readOk: int -> bool, accepted: int -> bool)

  /** One day of `batch`. */
  function Step(conv: Conversions, columns: Columns, env: Env): (map<string, seq<Row>>, int) -> Outcome<Row> {
    (tables, d) => Run(conv, columns, env.fetched(d), tables, env.readOk(d), env.accepted(d))
  }

  const BatchFirst := DayNumber(Date(2025, 7, 25))
  const BatchLast := DayNumber(Date(2025, 7, 25))

  /** `batch()`: `run` on each business day of the range, in order; the
      first day that raises ends the loop with that exception. */
  method Batch(db: Store<Row>, conv: Conversions, env: Env) returns (raised: Option<string>)
    modifies db
    ensures Outcome(db.tables, raised)
      == RunStopping(Step(conv, PlColumns, env), old(db.tables), BusinessDaysInRange(BatchFirst, BatchLast))
  {
    raised := RunDays(db, conv, env, BusinessDaysInRange(BatchFirst, BatchLast));
  }

  /** `for data in datas: run(data)`. */
  method RunDays(db: Store<Row>, conv: Conversions, env: Env, days: seq<int>) returns (raised: Option<string>)
    modifies db
    ensures Outcome(db.tables, raised) == RunStopping(Step(conv, PlColumns, env), old(db.tables), days)
  {
    ghost var step := Step(conv, PlColumns, env);
    for k := 0 to |days|
      invariant RunStopping(step, old(db.tables), days[..k]) == Outcome(db.tables, None)
    {
      var d := days[k];
      raised := RunDay(db, conv, PlColumns, env.fetched(d), env.readOk(d), env.accepted(d));
      StoppingNext(step, old(db.tables), days, k);
      if raised.Some? {
        StoppingHalts(step, old(db.tables), days[..k + 1], days[k + 1..]);
        assert days[..k + 1] + days[k + 1..] == days;
        return;
      }
    }
    assert days[..|days|] == days;
    return None;
  }

  /** `batch` only appends. */
  lemma BatchGrows(conv: Conversions, columns: Columns, env: Env, tables: map<string, seq<Row>>, days: seq<int>)
    requires SourceColumn !in columns.numeric && SourceColumn !in columns.dates
    ensures Grows(tables, RunStopping(Step(conv, columns, env), tables, days).tables)
  {
    forall t, d ensures Grows(t, Step(conv, columns, env)(t, d).tables) {
      RunAppendsMergeableRows(conv, columns, env.fetched(d), t, env.readOk(d), env.accepted(d));
    }
    StoppingGrows(Step(conv, columns, env), tables, days);
  }
}
