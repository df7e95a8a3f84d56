/** The fund-movements loader of `src/movimentos.py`.  `run` fetches the
    transaction orders of one day; when every required column is there it
    keeps those columns, converts them, and merges four tables in turn:
    the distinct portfolios, investors and distributors named in the orders,
    then the orders themselves.  Each merge is the whole-table id merge of
    `EntityMerge`; the first exception ends `run`, and what earlier merges
    wrote stays written.  `batch` runs every business day of a fixed range
    and stops at the first day that raises. */
module MovimentosLoader {
  import opened Wrappers
  import opened Json
  import opened Civil
  import opened TradingCalendar
  import opened Frames
  import opened Batches
  import opened EntityMerge

  const PortfolioTable := "portfolio"
  const InvestorTable := "investor"
  const DistributorTable := "distributor"
  const MovementsTable := "movements"

  /** The columns `run` insists on, and keeps, in this order. */
  const RequiredColumns: seq<string> := [
    "id", "portfolio_id", "portfolio_name", "investor_id", "investor_name",
    "distributor_id", "distributor_name", "transaction_type_description",
    "net_financial_value", "request_date", "conversion_date", "payment_date",
    "investor_legal_id", "investor_legal_entity_type", "account_group_name",
    "investor_custody_account_name", "navps", "shares_amount", "invested_book_id"]

  const NumericColumns: seq<string> := ["net_financial_value", "navps", "shares_amount"]
  const DateColumns: seq<string> := ["request_date", "conversion_date", "payment_date"]
  const IdColumns: seq<string> := ["portfolio_id", "investor_id", "distributor_id"]

  /** The column lists `run` works with: the required ones, and those it
      converts to numbers, to dates and to `Int64`.  The proofs below hold
      for any lists; `run` uses `MovementColumns`. */
  datatype Columns = Columns(required: seq<string>, numeric: seq<string>, dates: seq<string>, ids: seq<string>)

  const MovementColumns := Columns(RequiredColumns, NumericColumns, DateColumns, IdColumns)

  const PortfolioColumns: seq<string> := ["portfolio_id", "portfolio_name", "invested_book_id"]
  const InvestorColumns: seq<string> := ["investor_id", "investor_name"]
  const DistributorColumns: seq<string> := ["distributor_id", "distributor_name"]

  // ----- the frame -----

  /** `df[required_columns].copy()` and the conversions: `to_numeric` on
      the amounts, `to_datetime` on the dates, `astype("Int64")` on the
      three entity ids, which raises `TypeError` on a cell it cannot cast. */
  function Prepared(conv: Conversions, columns: Columns, records: seq<Row>): (r: Result<seq<Row>>)
    ensures r.Failure? ==> r.error == TypeErrorRaised
    ensures r.Success? ==> |r.value| == |records|
    ensures r.Success? ==> forall i, c :: 0 <= i < |records| ==> (HasKey(r.value[i], c) <==> c in columns.required)
  {
    CastColumns(MapColumns(MapColumns(Selected(records, columns.required), columns.numeric, conv.numeric),
                           columns.dates, conv.datetime),
                columns.ids, conv.int64)
  }

  method Prepare(conv: Conversions, columns: Columns, records: seq<Row>) returns (r: Result<seq<Row>>)
    ensures r == Prepared(conv, columns, records)
  {
    var df := Selected(records, columns.required);
    df := ConvertColumns(df, columns.numeric, conv.numeric);
    df := ConvertColumns(df, columns.dates, conv.datetime);
    r := CastEachColumn(df, columns.ids, conv.int64);
  }

  /** `df[cols].drop_duplicates()` and then the rows whose `idColumn` is not
      null. */
  function Entity(df: seq<Row>, cols: seq<string>, idColumn: string): seq<Row> {
    Filter(DropDuplicates(Selected(df, cols)), NotNullIn(idColumn))
  }

  /** The rows of an entity table are the distinct projections of the
      frame's rows that have an id, each once. */
  lemma EntityRows(df: seq<Row>, cols: seq<string>, idColumn: string)
    ensures var r := Entity(df, cols, idColumn);
      && Unique(r)
      && (forall i :: 0 <= i < |r| ==> r[i] in Selected(df, cols) && NotNull(r[i], idColumn))
      && forall x :: x in Selected(df, cols) && NotNull(x, idColumn) ==> x in r
  {
    var unique := DropDuplicates(Selected(df, cols));
    FilterUnique(unique, NotNullIn(idColumn));
    forall x | x in unique && NotNull(x, idColumn) ensures x in Filter(unique, NotNullIn(idColumn)) {
      var k :| 0 <= k < |unique| && unique[k] == x;
      assert NotNullIn(idColumn)(unique[k]);
    }
  }

  // ----- the merges -----

  /** One `append_entity_data(rows, table, id_column)` call. */
  datatype Merge = Merge(table: string, rows: seq<Row>, idColumn: string)

  /** The four merges of `run`, in the order it makes them. */
  function Merges(df: seq<Row>): seq<Merge> {
    [Merge(PortfolioTable, Entity(df, PortfolioColumns, "portfolio_id"), "portfolio_id"),
     Merge(InvestorTable, Entity(df, InvestorColumns, "investor_id"), "investor_id"),
     Merge(DistributorTable, Entity(df, DistributorColumns, "distributor_id"), "distributor_id"),
     Merge(MovementsTable, Filter(df, NotNullIn("id")), "id")]
  }

  /** The merges one after the other; the first exception ends the run. */
  function MergeAll(tables: map<string, seq<Row>>, ms: seq<Merge>, readOk: string -> bool, accepted: string -> bool)
    : Outcome<Row>
    decreases |ms|
  {
    if ms == [] then Outcome(tables, None)
    else
      var o := AppendEntity(tables, ms[0].rows, ms[0].table, ms[0].idColumn, readOk(ms[0].table), accepted(ms[0].table));
      if o.raised.Some? then o else MergeAll(o.tables, ms[1..], readOk, accepted)
  }

  /** The tables some merges write. */
  function Tables(ms: seq<Merge>): set<string> {
    set m | m in ms :: m.table
  }

  /** No two merges write the same table. */
  predicate DistinctTables(ms: seq<Merge>) {
    forall i, j :: 0 <= i < j < |ms| ==> ms[i].table != ms[j].table
  }

  // ----- run -----

  /** `run(data)` on what the API returned: an exception from fetching is
      the day's exception; an empty frame, or one without a required
      column, writes nothing. */
  function Run(conv: Conversions, columns: Columns, fetched: Result<seq<Row>>, tables: map<string, seq<Row>>,
               readOk: string -> bool, accepted: string -> bool): Outcome<Row> {
    match fetched
    case Failure(e) => Outcome(tables, Some(e))
    case Success(records) =>
      if EmptyFrame(records) || MissingColumns(records, columns.required) != [] then Outcome(tables, None)
      else match Prepared(conv, columns, records)
        case Failure(e) => Outcome(tables, Some(e))
        case Success(df) => MergeAll(tables, Merges(df), readOk, accepted)
  }

  method RunDay(db: Store<Row>, conv: Conversions, columns: Columns, fetched: Result<seq<Row>>,
                readOk: string -> bool, accepted: string -> bool)
    returns (raised: Option<string>)
    modifies db
    ensures Outcome(db.tables, raised) == Run(conv, columns, fetched, old(db.tables), readOk, accepted)
  {
    if fetched.Failure? {
      return Some(fetched.error);
    }
    var records := fetched.value;
    if EmptyFrame(records) {
      return None;
    }
    var missing := MissingColumns(records, columns.required);
    if |missing| > 0 {
      return None;
    }
    var typed := Prepare(conv, columns, records);
    if typed.Failure? {
      return Some(typed.error);
    }
    var ms := Merges(typed.value);
    raised := MergeDay(db, ms, readOk, accepted);
  }

  /** The `append_entity_data` calls of `run`, one table after the other;
      an exception ends the run. */
  method MergeDay(db: Store<Row>, ms: seq<Merge>, readOk: string -> bool, accepted: string -> bool)
    returns (raised: Option<string>)
    modifies db
    ensures Outcome(db.tables, raised) == MergeAll(old(db.tables), ms, readOk, accepted)
  {
    for k := 0 to |ms|
      invariant MergeAll(old(db.tables), ms, readOk, accepted) == MergeAll(db.tables, ms[k..], readOk, accepted)
    {
      var m := ms[k];
      raised := AppendEntityData(db, m.rows, m.table, m.idColumn, readOk(m.table), accepted(m.table));
      if raised.Some? {
        return;
      }
      assert ms[k..][1..] == ms[k + 1..];
    }
    return None;
  }

  // ----- what the merges promise -----

  /** The merges only append, and a table none of them names is left as it
      was. */
  lemma {:induction false} MergeAllGrows(tables: map<string, seq<Row>>, ms: seq<Merge>,
                                         readOk: string -> bool, accepted: string -> bool)
    decreases |ms|
    ensures var after := MergeAll(tables, ms, readOk, accepted).tables;
      && Grows(tables, after)
      && forall t :: t !in Tables(ms) ==> (t in after <==> t in tables) && (t in tables ==> after[t] == tables[t])
  {
    if ms != [] {
      var m := ms[0];
      var o := AppendEntity(tables, m.rows, m.table, m.idColumn, readOk(m.table), accepted(m.table));
      AppendEntityGrows(tables, m.rows, m.table, m.idColumn, readOk(m.table), accepted(m.table));
      if o.raised.None? {
        MergeAllGrows(o.tables, ms[1..], readOk, accepted);
        assert Tables(ms) == {m.table} + Tables(ms[1..]) by {
          assert forall x :: x in ms <==> x == m || x in ms[1..];
        }
      }
    }
  }

  /** The merges run in order and the first exception ends them: the merges
      after a prefix run on what the prefix left, unless it raised, and
      what the prefix wrote stays written. */
  lemma {:induction false} MergeAllSplit(tables: map<string, seq<Row>>, a: seq<Merge>, b: seq<Merge>,
                                         readOk: string -> bool, accepted: string -> bool)
    decreases |a|
    ensures var first := MergeAll(tables, a, readOk, accepted);
      MergeAll(tables, a + b, readOk, accepted)
        == if first.raised.Some? then first else MergeAll(first.tables, b, readOk, accepted)
  {
    if a == [] {
      assert a + b == b;
    } else {
      assert (a + b)[0] == a[0];
      assert (a + b)[1..] == a[1..] + b;
      var o := AppendEntity(tables, a[0].rows, a[0].table, a[0].idColumn, readOk(a[0].table), accepted(a[0].table));
      if o.raised.None? {
        MergeAllSplit(o.tables, a[1..], b, readOk, accepted);
      }
    }
  }

  /** Every row the merges append to a table that was there satisfies what
      every row of the batch for that table satisfies. */
  lemma {:induction false} MergeAllAppendsFrom(tables: map<string, seq<Row>>, ms: seq<Merge>,
                                               readOk: string -> bool, accepted: string -> bool,
                                               k: nat, p: Row -> bool)
    decreases |ms|
    requires DistinctTables(ms) && k < |ms| && ms[k].table in tables
    requires forall i :: 0 <= i < |ms[k].rows| ==> p(ms[k].rows[i])
    ensures var after := MergeAll(tables, ms, readOk, accepted).tables;
      var t := ms[k].table;
      && t in after && tables[t] <= after[t]
      && forall i :: |tables[t]| <= i < |after[t]| ==> p(after[t][i])
  {
    var m := ms[0];
    var o := AppendEntity(tables, m.rows, m.table, m.idColumn, readOk(m.table), accepted(m.table));
    AppendEntityGrows(tables, m.rows, m.table, m.idColumn, readOk(m.table), accepted(m.table));
    var rest := ms[1..];
    if k == 0 {
      AppendEntityFrom(tables, m.rows, m.table, m.idColumn, readOk(m.table), accepted(m.table), p);
      if o.raised.None? {
        MergeAllGrows(o.tables, rest, readOk, accepted);
        assert m.table !in Tables(rest) by {
          forall x | x in rest ensures x.table != m.table {
            var i :| 0 <= i < |rest| && rest[i] == x;
            assert rest[i] == ms[i + 1];
          }
        }
      }
    } else if o.raised.None? {
      assert rest[k - 1] == ms[k];
      assert DistinctTables(rest) by {
        forall i, j | 0 <= i < j < |rest| ensures rest[i].table != rest[j].table {
          assert rest[i] == ms[i + 1] && rest[j] == ms[j + 1];
        }
      }
      MergeAllAppendsFrom(o.tables, rest, readOk, accepted, k - 1, p);
    }
  }

  /** Idempotence of the merges: once they all went through, running them
      again on what they left inserts nothing and raises nothing, as long as
      the tables can be read. */
  lemma {:induction false} MergeAllTwice(tables: map<string, seq<Row>>, ms: seq<Merge>,
                                         readOk: string -> bool, accepted: string -> bool,
                                         readAgain: string -> bool, acceptedAgain: string -> bool)
    decreases |ms|
    requires DistinctTables(ms)
    requires MergeAll(tables, ms, readOk, accepted).raised.None?
    requires forall i :: 0 <= i < |ms| ==> readAgain(ms[i].table)
    ensures var once := MergeAll(tables, ms, readOk, accepted).tables;
      MergeAll(once, ms, readAgain, acceptedAgain) == Outcome(once, None)
  {
    if ms != [] {
      var m := ms[0];
      var rest := ms[1..];
      var o := AppendEntity(tables, m.rows, m.table, m.idColumn, readOk(m.table), accepted(m.table));
      var once := MergeAll(o.tables, rest, readOk, accepted).tables;
      assert DistinctTables(rest) && (forall i :: 0 <= i < |rest| ==> readAgain(rest[i].table))
        && m.table !in Tables(rest) by {
        forall i | 0 <= i < |rest| ensures readAgain(rest[i].table) && rest[i].table != m.table {
          assert rest[i] == ms[i + 1];
        }
        forall x | x in rest ensures x.table != m.table {
          var i :| 0 <= i < |rest| && rest[i] == x;
        }
        forall i, j | 0 <= i < j < |rest| ensures rest[i].table != rest[j].table {
          assert rest[i] == ms[i + 1] && rest[j] == ms[j + 1];
        }
      }
      AppendEntityGrows(tables, m.rows, m.table, m.idColumn, readOk(m.table), accepted(m.table));
      MergeAllGrows(o.tables, rest, readOk, accepted);
      MergeAllTwice(o.tables, rest, readOk, accepted, readAgain, acceptedAgain);
      MergeTwiceInsertsNothing(tables, once, m.rows, m.table, m.idColumn,
                               readOk(m.table), accepted(m.table), acceptedAgain(m.table));
    }
  }

  // ----- what run promises -----

  /** The tables `run` writes. */
  const RunTables: set<string> := {PortfolioTable, InvestorTable, DistributorTable, MovementsTable}

  /** The four merges write four different tables, and no others. */
  lemma MergesTables(df: seq<Row>)
    ensures DistinctTables(Merges(df))
    ensures Tables(Merges(df)) == RunTables
  {
    FourTables(Entity(df, PortfolioColumns, "portfolio_id"), Entity(df, InvestorColumns, "investor_id"),
               Entity(df, DistributorColumns, "distributor_id"), Filter(df, NotNullIn("id")));
  }

  lemma FourTables(a: seq<Row>, b: seq<Row>, c: seq<Row>, d: seq<Row>)
    ensures var ms := [Merge(PortfolioTable, a, "portfolio_id"), Merge(InvestorTable, b, "investor_id"),
                       Merge(DistributorTable, c, "distributor_id"), Merge(MovementsTable, d, "id")];
      DistinctTables(ms) && Tables(ms) == RunTables
  {
    var ms := [Merge(PortfolioTable, a, "portfolio_id"), Merge(InvestorTable, b, "investor_id"),
               Merge(DistributorTable, c, "distributor_id"), Merge(MovementsTable, d, "id")];
    assert forall x :: x in ms <==> x == ms[0] || x == ms[1] || x == ms[2] || x == ms[3];
  }

  /** A frame without one of the required columns writes nothing and raises
      nothing. */
  lemma MissingColumnWritesNothing(conv: Conversions, records: seq<Row>, tables: map<string, seq<Row>>,
                                   readOk: string -> bool, accepted: string -> bool, c: string)
    requires c in RequiredColumns && !HasColumn(records, c)
    ensures Run(conv, MovementColumns, Success(records), tables, readOk, accepted) == Outcome(tables, None)
  {
    assert c in MissingColumns(records, RequiredColumns);
  }

  /** `run` either writes nothing or makes its merges on the frame it
      prepared. */
  lemma RunMerges(conv: Conversions, columns: Columns, fetched: Result<seq<Row>>, tables: map<string, seq<Row>>,
                  readOk: string -> bool, accepted: string -> bool)
    ensures var o := Run(conv, columns, fetched, tables, readOk, accepted);
      || o.tables == tables
      || (&& fetched.Success? && Prepared(conv, columns, fetched.value).Success?
          && o == MergeAll(tables, Merges(Prepared(conv, columns, fetched.value).value), readOk, accepted))
  {
  }

  /** `run` only appends; it never touches a table other than its four. */
  lemma RunGrows(conv: Conversions, columns: Columns, fetched: Result<seq<Row>>, tables: map<string, seq<Row>>,
                 readOk: string -> bool, accepted: string -> bool)
    ensures var after := Run(conv, columns, fetched, tables, readOk, accepted).tables;
      && Grows(tables, after)
      && forall t :: t !in RunTables ==> (t in after <==> t in tables) && (t in tables ==> after[t] == tables[t])
  {
    RunMerges(conv, columns, fetched, tables, readOk, accepted);
    if fetched.Success? && Prepared(conv, columns, fetched.value).Success? {
      var df := Prepared(conv, columns, fetched.value).value;
      MergesTables(df);
      MergeAllGrows(tables, Merges(df), readOk, accepted);
    }
  }

  /** The tables `run` writes and the id column of each, in the order of
      its merges. */
  const Targets: seq<(string, string)> :=
    [(PortfolioTable, "portfolio_id"), (InvestorTable, "investor_id"),
     (DistributorTable, "distributor_id"), (MovementsTable, "id")]

  /** Each merge of `run` sends only rows with an id. */
  lemma MergesIdentified(df: seq<Row>, k: nat)
    requires k < |Targets|
    ensures var m := Merges(df)[k];
      && m.table == Targets[k].0 && m.idColumn == Targets[k].1
      && forall i :: 0 <= i < |m.rows| ==> NotNullIn(m.idColumn)(m.rows[i])
  {
    var m := Merges(df)[k];
    if k == 0 {
      EntityRows(df, PortfolioColumns, "portfolio_id");
    } else if k == 1 {
      EntityRows(df, InvestorColumns, "investor_id");
    } else if k == 2 {
      EntityRows(df, DistributorColumns, "distributor_id");
    }
  }

  /** Every row `run` appends to one of its tables has an id there. */
  lemma RunAppendsIdentifiedRows(conv: Conversions, columns: Columns, fetched: Result<seq<Row>>,
                                 tables: map<string, seq<Row>>, readOk: string -> bool, accepted: string -> bool,
                                 k: nat)
    requires k < |Targets| && Targets[k].0 in tables
    ensures var after := Run(conv, columns, fetched, tables, readOk, accepted).tables;
      var (t, c) := Targets[k];
      && t in after && tables[t] <= after[t]
      && forall i :: |tables[t]| <= i < |after[t]| ==> NotNull(after[t][i], c)
  {
    RunMerges(conv, columns, fetched, tables, readOk, accepted);
    if fetched.Success? && Prepared(conv, columns, fetched.value).Success? {
      var df := Prepared(conv, columns, fetched.value).value;
      MergesTables(df);
      MergesIdentified(df, k);
      MergeAllAppendsFrom(tables, Merges(df), readOk, accepted, k, NotNullIn(Targets[k].1));
    }
  }

  /** A merge that raises ends the sequence, and what the merges before it
      wrote stays written. */
  lemma MergeAllRaisesAt(tables: map<string, seq<Row>>, ms: seq<Merge>, k: nat,
                         readOk: string -> bool, accepted: string -> bool)
    requires k < |ms|
    requires MergeAll(tables, ms[..k], readOk, accepted).raised.None?
    requires var before := MergeAll(tables, ms[..k], readOk, accepted).tables;
      AppendEntity(before, ms[k].rows, ms[k].table, ms[k].idColumn, readOk(ms[k].table), accepted(ms[k].table)).raised.Some?
    ensures var o := MergeAll(tables, ms, readOk, accepted);
      o == Outcome(MergeAll(tables, ms[..k], readOk, accepted).tables, o.raised) && o.raised.Some?
  {
    var before := MergeAll(tables, ms[..k], readOk, accepted).tables;
    MergeAllSplit(tables, ms[..k], ms[k..], readOk, accepted);
    assert ms[..k] + ms[k..] == ms;
    assert ms[k..][0] == ms[k];
    AppendEntityGrows(before, ms[k].rows, ms[k].table, ms[k].idColumn, readOk(ms[k].table), accepted(ms[k].table));
  }

  /** A day that raises keeps what the merges before the failing one
      wrote: `run` is not a transaction. */
  lemma RaisingRunKeepsEarlierMerges(tables: map<string, seq<Row>>, df: seq<Row>, k: nat,
                                     readOk: string -> bool, accepted: string -> bool)
    requires k < 4
    requires MergeAll(tables, Merges(df)[..k], readOk, accepted).raised.None?
    requires var before := MergeAll(tables, Merges(df)[..k], readOk, accepted).tables;
      var m := Merges(df)[k];
      AppendEntity(before, m.rows, m.table, m.idColumn, readOk(m.table), accepted(m.table)).raised.Some?
    ensures var o := MergeAll(tables, Merges(df), readOk, accepted);
      o == Outcome(MergeAll(tables, Merges(df)[..k], readOk, accepted).tables, o.raised) && o.raised.Some?
  {
    MergeAllRaisesAt(tables, Merges(df), k, readOk, accepted);
  }

  /** Run twice on the same records, the second run inserts nothing and
      raises nothing, whatever the database would say to an append. */
  lemma RunTwiceInsertsNothing(conv: Conversions, columns: Columns, fetched: Result<seq<Row>>,
                               tables: map<string, seq<Row>>, readOk: string -> bool, accepted: string -> bool,
                               acceptedAgain: string -> bool)
    requires Run(conv, columns, fetched, tables, readOk, accepted).raised.None?
    ensures var once := Run(conv, columns, fetched, tables, readOk, accepted).tables;
      Run(conv, columns, fetched, once, AllTables, acceptedAgain) == Outcome(once, None)
  {
    if !EmptyFrame(fetched.value) && MissingColumns(fetched.value, columns.required) == [] {
      var ms := Merges(Prepared(conv, columns, fetched.value).value);
      MergesTables(Prepared(conv, columns, fetched.value).value);
      MergeAllTwice(tables, ms, readOk, accepted, AllTables, acceptedAgain);
    }
  }

  /** Every table answers a read. */
  function AllTables(t: string): bool {
    true
  }

  // ----- batch -----

  /** What the outside world answers on each day: the fetched records (or
      the exception fetching raised), and for each table whether reading it
      works and whether the database takes an append. */
  datatype Env = Env(fetched: int -> Result<seq<Row>>, readOk: int -> string -> bool, accepted: int -> string -> bool)

  /** One day of `batch`. */
  function Step(conv: Conversions, columns: Columns, env: Env): (map<string, seq<Row>>, int) -> Outcome<Row> {
    (tables, d) => Run(conv, columns, env.fetched(d), tables, env.readOk(d), env.accepted(d))
  }

  const BatchFirst := DayNumber(Date(2025, 7, 31))
  const BatchLast := DayNumber(Date(2025, 9, 25))

  /** `batch()`: `run` on each business day of the range, in order; the
      first day that raises ends the loop with that exception. */
  method Batch(db: Store<Row>, conv: Conversions, env: Env) returns (raised: Option<string>)
    modifies db
    ensures Outcome(db.tables, raised)
      == RunStopping(Step(conv, MovementColumns, env), old(db.tables), BusinessDaysInRange(BatchFirst, BatchLast))
  {
    raised := RunDays(db, conv, env, BusinessDaysInRange(BatchFirst, BatchLast));
  }

  /** `for data in datas: run(data)`. */
  method RunDays(db: Store<Row>, conv: Conversions, env: Env, days: seq<int>) returns (raised: Option<string>)
    modifies db
    ensures Outcome(db.tables, raised) == RunStopping(Step(conv, MovementColumns, env), old(db.tables), days)
  {
    ghost var step := Step(conv, MovementColumns, env);
    for k := 0 to |days|
      invariant RunStopping(step, old(db.tables), days[..k]) == Outcome(db.tables, None)
    {
      var d := days[k];
      raised := RunDay(db, conv, MovementColumns, env.fetched(d), env.readOk(d), env.accepted(d));
      StoppingNext(step, old(db.tables), days, k);
      if raised.Some? {
        StoppingHalts(step, old(db.tables), days[..k + 1], days[k + 1..]);
        assert days[..k + 1] + days[k + 1..] == days;
        return;
      }
    }
    assert days[..|days|] == days;
    return None;
  }

  /** `batch` only appends. */
  lemma BatchGrows(conv: Conversions, columns: Columns, env: Env, tables: map<string, seq<Row>>, days: seq<int>)
    ensures Grows(tables, RunStopping(Step(conv, columns, env), tables, days).tables)
  {
    forall t, d ensures Grows(t, Step(conv, columns, env)(t, d).tables) {
      RunGrows(conv, columns, env.fetched(d), t, env.readOk(d), env.accepted(d));
    }
    StoppingGrows(Step(conv, columns, env), tables, days);
  }
}
