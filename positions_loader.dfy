/** The positions loader of `src/positions.py`.  `run` turns the fetched
    position records into typed rows, drops internal duplicates and rows
    without a date; `append_positions_data_simple` then appends to the
    `positions` table the rows whose composite key is not stored yet for the
    same dates. */
module PositionsLoader {
  import opened Wrappers
  import opened Json
  import opened Civil
  import opened Frames

  const PositionsTable := "positions"

  /** The columns `run` insists on, in its order. */
  const RequiredColumns: seq<string> := [
    "date", "shares_amount", "distributor_name", "investor_names", "financial_value",
    "portfolio_name", "participation_in_portfolio", "account_group_names", "investor_ids"
  ]

  /** A row of the frame after `run`'s conversions: amounts in millionths
      (`None` is `NaN`), the date as a day number (`None` is `NaT`). */
  datatype Position = Position(
    portfolio: Value,
    date: Option<int>,
    investors: Value,
    distributor: Value,
    accountGroup: Value,
    shares: Option<int>,
    value: Option<int>,
    participation: Option<int>,
    investorIds: Option<int>)

  // ----- the composite key -----

  /** `round(x, 2)` of an amount in millionths, in hundredths: the nearest
      hundredth, and the even one on a tie. */
  function Round2(m: int): (c: int)
    ensures -5000 <= m - 10000 * c <= 5000
    ensures m - 10000 * c == 5000 || m - 10000 * c == -5000 ==> c % 2 == 0
  {
    var q := m / 10000;
    var rem := m % 10000;
    if rem > 5000 || (rem == 5000 && q % 2 == 1) then q + 1 else q
  }

  /** The digits after the point of `str()` of a float with `f` hundredths:
      a trailing zero is dropped, but one digit is always written. */
  function FractionText(f: nat): string
    requires f < 100
  {
    if f % 10 == 0 then [DigitChar(f / 10)] else [DigitChar(f / 10), DigitChar(f % 10)]
  }

  /** `str()` of the float `c / 100`. */
  function CentsText(c: int): string {
    var a := if c < 0 then -c else c;
    (if c < 0 then "-" else "") + NatToString(a / 100) + "." + FractionText(a % 100)
  }

  /** `col.round(2).astype(str)` at one row: a negative amount that rounds
      to zero keeps its sign, as `-0.0`. */
  function AmountText(a: Option<int>): string {
    match a
    case None => "nan"
    case Some(m) => if m < 0 && Round2(m) == 0 then "-0.0" else CentsText(Round2(m))
  }

  /** A month or a day as `strftime` writes it, on two digits. */
  function Pad2(k: int): string {
    if 0 <= k < 10 then "0" + IntToString(k) else IntToString(k)
  }

  /** `strftime('%Y-%m-%d')`. */
  function IsoDate(n: int): string {
    var c := FromDayNumber(n);
    IntToString(c.year) + "-" + Pad2(c.month) + "-" + Pad2(c.day)
  }

  /** `composite_key`: portfolio, date, investors, distributor, account
      group, shares and value joined by `|`.  A row without a date has the
      `NaN` key, `None`. */
  function CompositeKey(p: Position): (k: Option<string>)
    ensures k.Some? <==> p.date.Some?
  {
    match p.date
    case None => None
    case Some(d) =>
      Some(Join("|", [PyStr(p.portfolio), IsoDate(d), PyStr(p.investors), PyStr(p.distributor),
                      PyStr(p.accountGroup), AmountText(p.shares), AmountText(p.value)]))
  }

  // ----- check_data_quality -----

  /** The seven columns `check_data_quality` compares rows on. */
  function DuplicateKey(p: Position): (Value, Option<int>, Value, Value, Value, Option<int>, Option<int>) {
    (p.portfolio, p.date, p.investors, p.distributor, p.accountGroup, p.shares, p.value)
  }

  /** `check_data_quality`: later rows that repeat an earlier row's seven key
      columns are removed; every key still appears, once, as its first row,
      and the rows kept stay in their order. */
  function CheckDataQuality(rows: seq<Position>): (r: seq<Position>)
    ensures forall i :: 0 <= i < |r| ==> r[i] in rows
    ensures KeySet(r, DuplicateKey) == KeySet(rows, DuplicateKey)
    ensures forall i, j :: 0 <= i < j < |r| ==> DuplicateKey(r[i]) != DuplicateKey(r[j])
    ensures forall i :: 0 <= i < |r| ==>
      DuplicateKey(r[i]) in KeySet(rows, DuplicateKey) && r[i] == rows[FirstIndexOf(rows, DuplicateKey, DuplicateKey(r[i]))]
    ensures forall i, j :: 0 <= i < j < |r| ==>
      DuplicateKey(r[i]) in KeySet(rows, DuplicateKey) && DuplicateKey(r[j]) in KeySet(rows, DuplicateKey)
      && FirstIndexOf(rows, DuplicateKey, DuplicateKey(r[i])) < FirstIndexOf(rows, DuplicateKey, DuplicateKey(r[j]))
  {
    KeepFirst(rows, DuplicateKey)
  }

  /** Without internal duplicates the frame is returned as it is. */
  lemma CheckDataQualityUnchanged(rows: seq<Position>)
    requires forall i, j :: 0 <= i < j < |rows| ==> DuplicateKey(rows[i]) != DuplicateKey(rows[j])
    ensures CheckDataQuality(rows) == rows
  {
    KeepFirstDistinct(rows, DuplicateKey);
  }

  // ----- append_positions_data_simple -----

  /** Every row has a date. */
  predicate AllDated(df: seq<Position>) {
    forall i :: 0 <= i < |df| ==> df[i].date.Some?
  }

  /** The days `dates_to_check` names. */
  function BatchDates(df: seq<Position>): set<int> {
    set i | 0 <= i < |df| && df[i].date.Some? :: df[i].date.value
  }

  /** `WHERE date::date IN (...)`. */
  predicate OnDates(p: Position, dates: set<int>) {
    p.date.Some? && p.date.value in dates
  }

  /** The stored rows the query returns. */
  function ExistingRows(stored: seq<Position>, dates: set<int>): seq<Position> {
    Filter(stored, p => OnDates(p, dates))
  }

  /** The rows handed to `append_to_db` once the table exists: the batch
      when nothing is found for its dates (or the read fails), else the rows
      whose key is not among the found rows' keys.  The date join raises on
      a batch that holds a row without a date. */
  function RowsToInsert(df: seq<Position>, stored: seq<Position>, readOk: bool): Result<seq<Position>> {
    if !AllDated(df) then Failure(TypeErrorRaised)
    else
      var existing := if readOk then ExistingRows(stored, BatchDates(df)) else [];
      if existing == [] then Success(df)
      else Success(KeepNew(df, CompositeKey, KeySet(existing, CompositeKey)))
  }

  /** `append_positions_data_simple(df)` on the database `tables`: `readOk`
      is whether the read of existing rows succeeds, `accepted` whether the
      database takes the append.  Writing a new table is not guarded, so a
      refusal there is raised; a refused later append is only logged. */
  function AppendPositions(tables: map<string, seq<Position>>, df: seq<Position>, readOk: bool, accepted: bool): Outcome<Position> {
    if df == [] then Outcome(tables, None)
    else if PositionsTable !in tables then
      if accepted then Outcome(Appended(tables, PositionsTable, df), None)
      else Outcome(tables, Some(DatabaseErrorRaised))
    else
      match RowsToInsert(df, tables[PositionsTable], readOk)
      case Failure(e) => Outcome(tables, Some(e))
      case Success(rows) =>
        if rows != [] && accepted then Outcome(Appended(tables, PositionsTable, rows), None)
        else Outcome(tables, None)
  }

  /** `append_positions_data_simple`, against the database. */
  method AppendPositionsDataSimple(db: Store<Position>, df: seq<Position>, readOk: bool, accepted: bool)
    returns (raised: Option<string>)
    modifies db
    ensures Outcome(db.tables, raised) == AppendPositions(old(db.tables), df, readOk, accepted)
  {
    if df == [] {
      return None;
    }
    if !db.Exists(PositionsTable) {
      var ok := db.Append(PositionsTable, df, accepted);
      return if ok then None else Some(DatabaseErrorRaised);
    }
    var toInsert := RowsToInsert(df, db.tables[PositionsTable], readOk);
    if toInsert.Failure? {
      return Some(toInsert.error);
    }
    if toInsert.value != [] {
      var _ := db.Append(PositionsTable, toInsert.value, accepted);
    }
    return None;
  }

  // ----- what the merge promises -----

  /** Against stored rows for the batch's dates, the rows appended are
      exactly the batch rows whose key none of them has, in batch order, and
      the rows skipped are those whose key one of them has. */
  lemma InsertsUnseenKeys(tables: map<string, seq<Position>>, df: seq<Position>)
    requires PositionsTable in tables && AllDated(df) && df != []
    requires ExistingRows(tables[PositionsTable], BatchDates(df)) != []
    ensures var existing := KeySet(ExistingRows(tables[PositionsTable], BatchDates(df)), CompositeKey);
      var rows := RowsToInsert(df, tables[PositionsTable], true).value;
      && (forall i :: 0 <= i < |rows| ==> rows[i] in df && CompositeKey(rows[i]) !in existing)
      && (forall i :: 0 <= i < |df| && CompositeKey(df[i]) !in existing ==> df[i] in rows)
      && |rows| + |KeepKnown(df, CompositeKey, existing)| == |df|
      && AppendPositions(tables, df, true, true).tables[PositionsTable] == tables[PositionsTable] + rows
  {
    var existing := KeySet(ExistingRows(tables[PositionsTable], BatchDates(df)), CompositeKey);
    KeepNewCount(df, CompositeKey, existing);
  }

  /** When the read fails, or finds nothing for the batch's dates, the whole
      batch is appended. */
  lemma UnreadableOrNothingStoredInsertsAll(tables: map<string, seq<Position>>, df: seq<Position>, readOk: bool)
    requires PositionsTable in tables && AllDated(df) && df != []
    requires !readOk || ExistingRows(tables[PositionsTable], BatchDates(df)) == []
    ensures AppendPositions(tables, df, readOk, true).tables[PositionsTable] == tables[PositionsTable] + df
  {
  }

  /** A batch with a row without a date raises before anything is read
      when the table exists, and changes nothing. */
  lemma UndatedRowRaises(tables: map<string, seq<Position>>, df: seq<Position>, readOk: bool, accepted: bool)
    requires PositionsTable in tables && !AllDated(df)
    ensures AppendPositions(tables, df, readOk, accepted) == Outcome(tables, Some(TypeErrorRaised))
  {
  }

  /** Every row of a dated batch lies on one of the batch's dates. */
  lemma BatchOnItsDates(df: seq<Position>)
    requires AllDated(df)
    ensures Filter(df, p => OnDates(p, BatchDates(df))) == df
  {
    FilterAll(df, p => OnDates(p, BatchDates(df)));
  }

  /** Read back after the whole batch was stored, every batch row is found. */
  lemma AgainAfterAll(stored: seq<Position>, df: seq<Position>)
    requires AllDated(df) && df != []
    ensures RowsToInsert(df, stored + df, true) == Success([])
  {
    var dates := BatchDates(df);
    BatchOnItsDates(df);
    FilterAppend(stored, df, p => OnDates(p, dates));
    var again := ExistingRows(stored + df, dates);
    assert again == ExistingRows(stored, dates) + df;
    KeepNewDisjoint(df, CompositeKey, {});
    KeepNewSettles(df, CompositeKey, {}, KeySet(again, CompositeKey));
  }

  /** Read back after the new rows were stored, every batch row is found. */
  lemma AgainAfterNew(stored: seq<Position>, df: seq<Position>)
    requires AllDated(df) && df != [] && ExistingRows(stored, BatchDates(df)) != []
    ensures var existing := ExistingRows(stored, BatchDates(df));
      RowsToInsert(df, stored + KeepNew(df, CompositeKey, KeySet(existing, CompositeKey)), true) == Success([])
  {
    var dates := BatchDates(df);
    var existing := ExistingRows(stored, dates);
    var added := KeepNew(df, CompositeKey, KeySet(existing, CompositeKey));
    FilterAppend(stored, added, p => OnDates(p, dates));
    FilterAll(added, p => OnDates(p, dates));
    var again := ExistingRows(stored + added, dates);
    assert again == existing + added;
    KeepNewSettles(df, CompositeKey, KeySet(existing, CompositeKey), KeySet(again, CompositeKey));
  }

  /** Idempotence: once a dated batch has been merged with a successful
      append, merging it again with a successful read appends nothing. */
  lemma MergeTwiceInsertsNothing(tables: map<string, seq<Position>>, df: seq<Position>, readOk: bool)
    requires AllDated(df)
    ensures var once := AppendPositions(tables, df, readOk, true);
      once.raised.None? && AppendPositions(once.tables, df, true, true) == Outcome(once.tables, None)
  {
    if df != [] {
      if PositionsTable !in tables {
        AgainAfterAll([], df);
        assert [] + df == df;
      } else {
        var stored := tables[PositionsTable];
        var existing := if readOk then ExistingRows(stored, BatchDates(df)) else [];
        if existing == [] {
          AgainAfterAll(stored, df);
        } else {
          AgainAfterNew(stored, df);
          var added := KeepNew(df, CompositeKey, KeySet(existing, CompositeKey));
          if added == [] {
            assert stored + added == stored;
          }
        }
      }
    }
  }

  // ----- run -----

  /** `pd.to_numeric(name).notnull()` for every name. */
  predicate AllNumericNames(parse: Parsers, records: seq<Row>) {
    forall i :: 0 <= i < |records| ==> parse.number(Cell(records[i], "portfolio_name")).Some?
  }

  /** `portfolio_name` after `run`: cast to `Int64` when every name is
      numeric (`integer` is that cast, `None` where it raises), else each
      name as `str()` writes it. */
  function PortfolioNames(parse: Parsers, integer: Value -> Option<int>, records: seq<Row>): (r: Result<seq<Value>>)
    ensures r.Success? ==> |r.value| == |records|
    ensures !AllNumericNames(parse, records) ==> r.Success?
  {
    if AllNumericNames(parse, records) then IntegerNames(integer, records)
    else Success(seq(|records|, i requires 0 <= i < |records| => Str(PyStr(Cell(records[i], "portfolio_name")))))
  }

  /** `astype("Int64")` of the name column: raises on the first name that
      cannot be cast. */
  function IntegerNames(integer: Value -> Option<int>, records: seq<Row>): (r: Result<seq<Value>>)
    ensures r.Success? <==> forall i :: 0 <= i < |records| ==> integer(Cell(records[i], "portfolio_name")).Some?
    ensures r.Success? ==>
      |r.value| == |records| && forall i :: 0 <= i < |records| ==> r.value[i] == Int(integer(Cell(records[i], "portfolio_name")).value)
  {
    if records == [] then Success([])
    else match integer(Cell(records[0], "portfolio_name"))
      case None => Failure(TypeErrorRaised)
      case Some(n) =>
        match IntegerNames(integer, records[1..])
        case Failure(e) => Failure(e)
        case Success(rest) => Success([Int(n)] + rest)
  }

  /** `investor_ids` of one record after `run`: `int(x[0])` of a non-empty
      list, `<NA>` for any other cell.  `toInt` is Python's `int()` on one
      value, with the exception it raises. */
  function InvestorId(toInt: Value -> Result<int>, cell: Value): (r: Result<Option<int>>)
    ensures r.Success? && r.value.None? <==> !(cell.Arr? && cell.items != [])
    ensures r.Failure? <==> cell.Arr? && cell.items != [] && toInt(cell.items[0]).Failure?
    ensures r.Failure? ==> r.error == toInt(cell.items[0]).error
    ensures r.Success? && r.value.Some? ==> toInt(cell.items[0]) == Success(r.value.value)
  {
    if cell.Arr? && cell.items != [] then
      match toInt(cell.items[0])
      case Success(n) => Success(Some(n))
      case Failure(e) => Failure(e)
    else Success(None)
  }

  /** `df["investor_ids"].apply(...)`: the first record whose id `int()`
      cannot read raises, and nothing after it is looked at. */
  function InvestorIds(toInt: Value -> Result<int>, records: seq<Row>): (r: Result<seq<Option<int>>>)
    ensures r.Success? <==> forall i :: 0 <= i < |records| ==> InvestorId(toInt, Cell(records[i], "investor_ids")).Success?
    ensures r.Failure? ==> exists i :: (0 <= i < |records| && InvestorId(toInt, Cell(records[i], "investor_ids")) == Failure(r.error)
      && forall j :: 0 <= j < i ==> InvestorId(toInt, Cell(records[j], "investor_ids")).Success?)
    ensures r.Success? ==>
      |r.value| == |records| && forall i :: 0 <= i < |records| ==> r.value[i] == InvestorId(toInt, Cell(records[i], "investor_ids")).value
  {
    if records == [] then Success([])
    else match InvestorId(toInt, Cell(records[0], "investor_ids"))
      case Failure(e) => Failure(e)
      case Success(id) =>
        match InvestorIds(toInt, records[1..])
        case Failure(e) =>
          var i :| 0 <= i < |records[1..]| && InvestorId(toInt, Cell(records[1..][i], "investor_ids")) == Failure(e)
            && forall j :: 0 <= j < i ==> InvestorId(toInt, Cell(records[1..][j], "investor_ids")).Success?;
          assert records[i + 1] == records[1..][i];
          assert forall j :: 1 <= j < i + 1 ==> records[j] == records[1..][j - 1];
          Failure(e)
        case Success(rest) => Success([id] + rest)
  }

  /** One record after the conversions of `run`. */
  function ToPosition(parse: Parsers, record: Row, name: Value, id: Option<int>): Position {
    Position(
      name,
      parse.date(Cell(record, "date")),
      Cell(record, "investor_names"),
      Cell(record, "distributor_name"),
      Cell(record, "account_group_names"),
      parse.number(Cell(record, "shares_amount")),
      parse.number(Cell(record, "financial_value")),
      parse.number(Cell(record, "participation_in_portfolio")),
      id)
  }

  /** The converted rows of the records, named by `names`, with the investor
      ids `ids`: row `i` holds record `i`'s date and amounts as parsed. */
  function ToPositions(parse: Parsers, records: seq<Row>, names: seq<Value>, ids: seq<Option<int>>): (r: seq<Position>)
    requires |names| == |records| && |ids| == |records|
    ensures |r| == |records|
    ensures forall i :: 0 <= i < |records| ==>
      && r[i].portfolio == names[i] && r[i].investorIds == ids[i]
      && r[i].date == parse.date(Cell(records[i], "date"))
      && r[i].investors == Cell(records[i], "investor_names")
      && r[i].shares == parse.number(Cell(records[i], "shares_amount"))
      && r[i].value == parse.number(Cell(records[i], "financial_value"))
  {
    seq(|records|, i requires 0 <= i < |records| => ToPosition(parse, records[i], names[i], ids[i]))
  }

  predicate Dated(p: Position) {
    p.date.Some?
  }

  /** `p` carries the date and the investor id of one of the records. */
  predicate FromRecord(parse: Parsers, toInt: Value -> Result<int>, records: seq<Row>, p: Position) {
    exists i :: 0 <= i < |records| && p.date == parse.date(Cell(records[i], "date"))
      && InvestorId(toInt, Cell(records[i], "investor_ids")) == Success(p.investorIds)
  }

  /** Every converted row carries the date and the investor id of one of
      the records. */
  lemma ConvertedFromRecords(parse: Parsers, toInt: Value -> Result<int>, records: seq<Row>,
                             names: seq<Value>, ids: seq<Option<int>>)
    requires |names| == |records| && |ids| == |records|
    requires forall i :: 0 <= i < |records| ==> InvestorId(toInt, Cell(records[i], "investor_ids")) == Success(ids[i])
    ensures forall p :: p in ToPositions(parse, records, names, ids) ==> FromRecord(parse, toInt, records, p)
  {
    var converted := ToPositions(parse, records, names, ids);
    forall i | 0 <= i < |converted|
      ensures FromRecord(parse, toInt, records, converted[i])
    {
      ConvertedFromRecord(parse, toInt, records, names, ids, i);
    }
  }

  lemma ConvertedFromRecord(parse: Parsers, toInt: Value -> Result<int>, records: seq<Row>,
                            names: seq<Value>, ids: seq<Option<int>>, i: nat)
    requires |names| == |records| && |ids| == |records| && i < |records|
    requires InvestorId(toInt, Cell(records[i], "investor_ids")) == Success(ids[i])
    ensures FromRecord(parse, toInt, records, ToPositions(parse, records, names, ids)[i])
  {
    var p := ToPositions(parse, records, names, ids)[i];
    assert p.investorIds == ids[i] && p.date == parse.date(Cell(records[i], "date"));
  }

  /** The frame after `run`'s conversions, `check_data_quality` and the
      filter on the date, or the exception raised on the way.  The investor
      ids are converted before the portfolio names, so an id `int()` cannot
      read raises first. */
  function Converted(parse: Parsers, integer: Value -> Option<int>, toInt: Value -> Result<int>, records: seq<Row>)
    : (r: Result<seq<Position>>)
    ensures r.Success? ==> AllDated(r.value)
    ensures InvestorIds(toInt, records).Failure? ==> r == Failure(InvestorIds(toInt, records).error)
    ensures r.Success? ==> forall p :: p in r.value ==> FromRecord(parse, toInt, records, p)
  {
    match InvestorIds(toInt, records)
    case Failure(e) => Failure(e)
    case Success(ids) =>
      match PortfolioNames(parse, integer, records)
      case Failure(e) => Failure(e)
      case Success(names) =>
        var converted := ToPositions(parse, records, names, ids);
        ConvertedFromRecords(parse, toInt, records, names, ids);
        Success(Filter(CheckDataQuality(converted), Dated))
  }

  /** What `run` hands to `append_positions_data_simple`, or the exception
      raised before; `None` when it returns early (no data, or a required
      column missing). */
  function CleanBatch(parse: Parsers, integer: Value -> Option<int>, toInt: Value -> Result<int>, records: seq<Row>)
    : (r: Option<Result<seq<Position>>>)
    ensures r.Some? && r.value.Success? ==> AllDated(r.value.value)
    ensures r.Some? <==> !EmptyFrame(records) && MissingColumns(records, RequiredColumns) == []
    ensures r.Some? && InvestorIds(toInt, records).Failure? ==> r.value == Failure(InvestorIds(toInt, records).error)
    ensures r.Some? && r.value.Success? ==> forall p :: p in r.value.value ==> FromRecord(parse, toInt, records, p)
  {
    if EmptyFrame(records) || MissingColumns(records, RequiredColumns) != [] then None
    else Some(Converted(parse, integer, toInt, records))
  }

  /** `run` from the fetched records on: the database after it, and what it
      raised. */
  function Run(parse: Parsers, integer: Value -> Option<int>, toInt: Value -> Result<int>, records: seq<Row>,
               tables: map<string, seq<Position>>, readOk: bool, accepted: bool): Outcome<Position> {
    match CleanBatch(parse, integer, toInt, records)
    case None => Outcome(tables, None)
    case Some(Failure(e)) => Outcome(tables, Some(e))
    case Some(Success(df)) => AppendPositions(tables, df, readOk, accepted)
  }

  /** A frame lacking a required column writes nothing. */
  lemma MissingColumnWritesNothing(parse: Parsers, integer: Value -> Option<int>, toInt: Value -> Result<int>, records: seq<Row>,
                                   tables: map<string, seq<Position>>, readOk: bool, accepted: bool, c: string)
    requires c in RequiredColumns && !HasColumn(records, c)
    ensures Run(parse, integer, toInt, records, tables, readOk, accepted) == Outcome(tables, None)
  {
    assert c in MissingColumns(records, RequiredColumns);
  }

  /** An investor id `int()` cannot read makes `run` raise that exception
      before anything is written. */
  lemma UnreadableInvestorIdWritesNothing(parse: Parsers, integer: Value -> Option<int>, toInt: Value -> Result<int>,
                                          records: seq<Row>, tables: map<string, seq<Position>>, readOk: bool,
                                          accepted: bool, i: nat)
    requires !EmptyFrame(records) && MissingColumns(records, RequiredColumns) == []
    requires i < |records| && InvestorId(toInt, Cell(records[i], "investor_ids")).Failure?
    ensures Run(parse, integer, toInt, records, tables, readOk, accepted).tables == tables
    ensures Run(parse, integer, toInt, records, tables, readOk, accepted).raised.Some?
  {
    assert !InvestorIds(toInt, records).Success?;
    assert CleanBatch(parse, integer, toInt, records) == Some(Failure(InvestorIds(toInt, records).error));
  }

  /** Only dated rows reach the table, and each is one of the converted
      records. */
  lemma RunAppendsDatedRows(parse: Parsers, integer: Value -> Option<int>, toInt: Value -> Result<int>, records: seq<Row>,
                            tables: map<string, seq<Position>>, readOk: bool, accepted: bool)
    requires PositionsTable in tables
    ensures var o := Run(parse, integer, toInt, records, tables, readOk, accepted);
      PositionsTable in o.tables && tables[PositionsTable] <= o.tables[PositionsTable]
      && forall i :: |tables[PositionsTable]| <= i < |o.tables[PositionsTable]| ==> o.tables[PositionsTable][i].date.Some?
  {
    var batch := CleanBatch(parse, integer, toInt, records);
    if batch.Some? && batch.value.Success? {
      AppendsDatedRows(tables, batch.value.value, readOk, accepted);
    }
  }

  /** A dated batch only ever adds dated rows to a table that exists. */
  lemma AppendsDatedRows(tables: map<string, seq<Position>>, df: seq<Position>, readOk: bool, accepted: bool)
    requires PositionsTable in tables && AllDated(df)
    ensures var o := AppendPositions(tables, df, readOk, accepted);
      PositionsTable in o.tables && tables[PositionsTable] <= o.tables[PositionsTable]
      && forall i :: |tables[PositionsTable]| <= i < |o.tables[PositionsTable]| ==> o.tables[PositionsTable][i].date.Some?
  {
    var o := AppendPositions(tables, df, readOk, accepted);
    if df != [] {
      var rows := RowsToInsert(df, tables[PositionsTable], readOk).value;
      assert forall i :: 0 <= i < |rows| ==> rows[i] in df;
      if rows != [] && accepted {
        assert o.tables[PositionsTable] == tables[PositionsTable] + rows;
      }
    }
  }

  /** Running twice on the same records, with the database answering, writes
      the second time nothing. */
  lemma RunTwiceInsertsNothing(parse: Parsers, integer: Value -> Option<int>, toInt: Value -> Result<int>, records: seq<Row>,
                               tables: map<string, seq<Position>>, readOk: bool)
    ensures var once := Run(parse, integer, toInt, records, tables, readOk, true);
      once.raised.None? ==> Run(parse, integer, toInt, records, once.tables, true, true) == Outcome(once.tables, None)
  {
    var batch := CleanBatch(parse, integer, toInt, records);
    if batch.Some? && batch.value.Success? {
      MergeTwiceInsertsNothing(tables, batch.value.value, readOk);
    }
  }
}
