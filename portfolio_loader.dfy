/** The portfolio loader of `src/portfolio.py`.  `run` converts the fetched
    portfolio positions, aggregates them per (date, portfolio, portfolio id,
    instrument, position type, sector) and keeps the dated groups;
    `append_portfolio_data_simple` appends to `fund_portfolio` the groups
    whose key is not stored yet for the same dates. */
module PortfolioLoader {
  import opened Wrappers
  import opened Json
  import opened Frames
  import opened PositionsLoader

  const PortfolioTable := "fund_portfolio"

  /** The columns `run` keeps when present, in its order. */
  const DesiredColumns: seq<string> := [
    "date", "portfolio_name", "portfolio_id", "instrument_name",
    "quantity", "price", "asset_value", "book_name", "position_type",
    "pct_net_asset_value", "pct_asset_value", "sector_name"
  ]

  /** The group-by columns of one row. */
  datatype Group = Group(
    date: Option<int>,
    portfolio: Value,
    portfolioId: Option<int>,
    instrument: Value,
    positionType: Value,
    sector: Value)

  /** A converted record: its group, the four summed amounts in millionths
      (`None` is `NaN`) and its book. */
  datatype Line = Line(
    group: Group,
    assetValue: Option<int>,
    quantity: Option<int>,
    pctNet: Option<int>,
    pctAsset: Option<int>,
    book: Value)

  /** A row of the aggregated frame. */
  datatype Holding = Holding(
    group: Group,
    assetValue: int,
    quantity: int,
    pctNet: int,
    pctAsset: int,
    book: Value)

  // ----- the aggregation -----

  /** `sum` skips `NaN`. */
  function Amount(a: Option<int>): int {
    if a.Some? then a.value else 0
  }

  /** The first row of a group. */
  function Open(l: Line): Holding {
    Holding(l.group, Amount(l.assetValue), Amount(l.quantity), Amount(l.pctNet), Amount(l.pctAsset), l.book)
  }

  /** A further row of the group: amounts add up, and the book stays the
      first one that is not null (`first`). */
  function Fold(h: Holding, l: Line): Holding {
    Holding(h.group, h.assetValue + Amount(l.assetValue), h.quantity + Amount(l.quantity),
            h.pctNet + Amount(l.pctNet), h.pctAsset + Amount(l.pctAsset),
            if h.book != Null then h.book else l.book)
  }

  /** One row into the aggregated rows: into its group's row, or as a new
      group after the others (the model's order, not `groupby`'s sorted
      one). */
  function Add(hs: seq<Holding>, l: Line): (r: seq<Holding>)
    ensures |r| == |hs| || |r| == |hs| + 1
  {
    if hs == [] then [Open(l)]
    else if hs[0].group == l.group then [Fold(hs[0], l)] + hs[1..]
    else [hs[0]] + Add(hs[1..], l)
  }

  /** `df.groupby(groupby_columns).agg(agg_dict)`, one row per group.  The
      model lists the groups in the order they first appear; `groupby`
      sorts them by key, an order the model does not carry. */
  function Aggregate(lines: seq<Line>): seq<Holding> {
    if lines == [] then [] else Add(Aggregate(lines[..|lines| - 1]), lines[|lines| - 1])
  }

  /** The aggregated row of group `g`, if there is one. */
  function Find(hs: seq<Holding>, g: Group): Option<Holding> {
    if hs == [] then None else if hs[0].group == g then Some(hs[0]) else Find(hs[1..], g)
  }

  // ----- what the aggregation promises, by an independent definition -----

  /** Some row belongs to group `g`. */
  predicate InGroup(lines: seq<Line>, g: Group) {
    exists i :: 0 <= i < |lines| && lines[i].group == g
  }

  function AssetValueOf(l: Line): Option<int> { l.assetValue }
  function QuantityOf(l: Line): Option<int> { l.quantity }
  function PctNetOf(l: Line): Option<int> { l.pctNet }
  function PctAssetOf(l: Line): Option<int> { l.pctAsset }

  /** The sum of one amount over the rows of group `g`, `NaN` counting 0. */
  function GroupTotal(lines: seq<Line>, g: Group, amount: Line -> Option<int>): int {
    if lines == [] then 0
    else
      var last := lines[|lines| - 1];
      GroupTotal(lines[..|lines| - 1], g, amount) + (if last.group == g then Amount(amount(last)) else 0)
  }

  /** The first book of group `g` that is not null, or null. */
  function FirstBook(lines: seq<Line>, g: Group): Value {
    if lines == [] then Null
    else
      var last := lines[|lines| - 1];
      var earlier := FirstBook(lines[..|lines| - 1], g);
      if earlier != Null then earlier else if last.group == g then last.book else Null
  }

  /** The row the aggregation should give for group `g`. */
  function Expected(lines: seq<Line>, g: Group): Holding {
    Holding(g, GroupTotal(lines, g, AssetValueOf), GroupTotal(lines, g, QuantityOf),
            GroupTotal(lines, g, PctNetOf), GroupTotal(lines, g, PctAssetOf), FirstBook(lines, g))
  }

  /** Rows of no group `g` contribute nothing to it. */
  lemma {:induction false} ExpectedOutside(lines: seq<Line>, g: Group)
    requires !InGroup(lines, g)
    ensures GroupTotal(lines, g, AssetValueOf) == 0 && GroupTotal(lines, g, QuantityOf) == 0
    ensures GroupTotal(lines, g, PctNetOf) == 0 && GroupTotal(lines, g, PctAssetOf) == 0
    ensures FirstBook(lines, g) == Null
  {
    if lines != [] {
      var init := lines[..|lines| - 1];
      assert !InGroup(init, g) by {
        forall i | 0 <= i < |init| ensures init[i].group != g {
          assert init[i] == lines[i];
        }
      }
      ExpectedOutside(init, g);
    }
  }

  /** Adding a row changes only its own group's row. */
  lemma {:induction false} FindAdd(hs: seq<Holding>, l: Line, g: Group)
    ensures Find(Add(hs, l), g)
      == if g != l.group then Find(hs, g)
         else match Find(hs, g) case None => Some(Open(l)) case Some(h) => Some(Fold(h, l))
  {
    if hs != [] && hs[0].group != l.group {
      FindAdd(hs[1..], l, g);
    }
  }

  /** The aggregation has one row per group that occurs, holding that group's
      sums and first book, and no row for any other group. */
  lemma {:induction false} AggregateFind(lines: seq<Line>, g: Group)
    ensures Find(Aggregate(lines), g) == if InGroup(lines, g) then Some(Expected(lines, g)) else None
  {
    if lines != [] {
      var init := lines[..|lines| - 1];
      var last := lines[|lines| - 1];
      AggregateFind(init, g);
      FindAdd(Aggregate(init), last, g);
      assert InGroup(lines, g) <==> InGroup(init, g) || last.group == g by {
        if InGroup(lines, g) && last.group != g {
          var i :| 0 <= i < |lines| && lines[i].group == g;
          assert init[i] == lines[i];
        }
        if InGroup(init, g) {
          var i :| 0 <= i < |init| && init[i].group == g;
          assert lines[i] == init[i];
        }
      }
      if last.group == g && !InGroup(init, g) {
        ExpectedOutside(init, g);
      }
    }
  }

  /** The groups of some aggregated rows, in order. */
  function Groups(hs: seq<Holding>): (r: seq<Group>)
    ensures |r| == |hs|
    ensures forall i :: 0 <= i < |hs| ==> r[i] == hs[i].group
  {
    if hs == [] then [] else [hs[0].group] + Groups(hs[1..])
  }

  /** The groups of `Add(hs, l)`: those of `hs`, followed by `l`'s group if
      it is new. */
  lemma {:induction false} GroupsAdd(hs: seq<Holding>, l: Line)
    ensures Groups(Add(hs, l)) == if l.group in Groups(hs) then Groups(hs) else Groups(hs) + [l.group]
  {
    if hs != [] && hs[0].group != l.group {
      GroupsAdd(hs[1..], l);
      assert l.group in Groups(hs) <==> l.group in Groups(hs[1..]) by {
        assert Groups(hs) == [hs[0].group] + Groups(hs[1..]);
      }
    }
  }

  /** No two aggregated rows share a group. */
  lemma {:induction false} AggregateDistinct(lines: seq<Line>)
    ensures var gs := Groups(Aggregate(lines));
      forall i, j :: 0 <= i < j < |gs| ==> gs[i] != gs[j]
  {
    if lines != [] {
      var init := lines[..|lines| - 1];
      var last := lines[|lines| - 1];
      AggregateDistinct(init);
      var gs := Groups(Aggregate(init));
      GroupsAdd(Aggregate(init), last);
      assert Aggregate(lines) == Add(Aggregate(init), last);
      if last.group !in gs {
        assert forall i :: 0 <= i < |gs| ==> gs[i] != last.group;
      }
    }
  }

  // ----- append_portfolio_data_simple -----

  /** Every aggregated row has a date. */
  predicate AllDated(df: seq<Holding>) {
    forall i :: 0 <= i < |df| ==> df[i].group.date.Some?
  }

  /** The days `dates_to_check` names. */
  function BatchDates(df: seq<Holding>): set<int> {
    set i | 0 <= i < |df| && df[i].group.date.Some? :: df[i].group.date.value
  }

  /** `WHERE date::date IN (...)`. */
  predicate OnDates(h: Holding, dates: set<int>) {
    h.group.date.Some? && h.group.date.value in dates
  }

  function ExistingRows(stored: seq<Holding>, dates: set<int>): seq<Holding> {
    Filter(stored, h => OnDates(h, dates))
  }

  /** `composite_key` of a row, with its date written by `date`: the batch
      writes it with `strftime('%Y-%m-%d')`, the rows read back with
      `astype(str)`, whose text is given as `storedDate`.  A row without a
      date has the `NaN` key, `None`. */
  function Key(h: Holding, date: int -> string): Option<string> {
    match h.group.date
    case None => None
    case Some(d) =>
      Some(Join("|", [PyStr(h.group.portfolio), date(d), PyStr(h.group.instrument), PyStr(h.group.positionType)]))
  }

  function BatchKey(h: Holding): Option<string> {
    Key(h, IsoDate)
  }

  /** The rows handed to `append_to_db` once the table exists. */
  function RowsToInsert(df: seq<Holding>, stored: seq<Holding>, readOk: bool, storedDate: int -> string): Result<seq<Holding>> {
    if !AllDated(df) then Failure(TypeErrorRaised)
    else
      var existing := if readOk then ExistingRows(stored, BatchDates(df)) else [];
      if existing == [] then Success(df)
      else Success(KeepNew(df, BatchKey, KeySet(existing, h => Key(h, storedDate))))
  }

  /** `append_portfolio_data_simple(df)`, with the same branches as the
      positions merge. */
  function AppendPortfolio(tables: map<string, seq<Holding>>, df: seq<Holding>, readOk: bool, accepted: bool,
                           storedDate: int -> string): Outcome<Holding> {
    if df == [] then Outcome(tables, None)
    else if PortfolioTable !in tables then
      if accepted then Outcome(Appended(tables, PortfolioTable, df), None)
      else Outcome(tables, Some(DatabaseErrorRaised))
    else
      match RowsToInsert(df, tables[PortfolioTable], readOk, storedDate)
      case Failure(e) => Outcome(tables, Some(e))
      case Success(rows) =>
        if rows != [] && accepted then Outcome(Appended(tables, PortfolioTable, rows), None)
        else Outcome(tables, None)
  }

  /** `append_portfolio_data_simple`, against the database. */
  method AppendPortfolioDataSimple(db: Store<Holding>, df: seq<Holding>, readOk: bool, accepted: bool,
                                   storedDate: int -> string) returns (raised: Option<string>)
    modifies db
    ensures Outcome(db.tables, raised) == AppendPortfolio(old(db.tables), df, readOk, accepted, storedDate)
  {
    if df == [] {
      return None;
    }
    if !db.Exists(PortfolioTable) {
      var ok := db.Append(PortfolioTable, df, accepted);
      return if ok then None else Some(DatabaseErrorRaised);
    }
    var toInsert := RowsToInsert(df, db.tables[PortfolioTable], readOk, storedDate);
    if toInsert.Failure? {
      return Some(toInsert.error);
    }
    if toInsert.value != [] {
      var _ := db.Append(PortfolioTable, toInsert.value, accepted);
    }
    return None;
  }

  // ----- what the merge promises -----

  /** Against stored rows for the batch's dates, the rows appended are
      exactly the batch rows whose key none of them has, in batch order;
      skipped plus appended is the batch size. */
  lemma InsertsUnseenKeys(tables: map<string, seq<Holding>>, df: seq<Holding>, storedDate: int -> string)
    requires PortfolioTable in tables && AllDated(df) && df != []
    requires ExistingRows(tables[PortfolioTable], BatchDates(df)) != []
    ensures var existing := KeySet(ExistingRows(tables[PortfolioTable], BatchDates(df)), h => Key(h, storedDate));
      var rows := RowsToInsert(df, tables[PortfolioTable], true, storedDate).value;
      && (forall i :: 0 <= i < |rows| ==> rows[i] in df && BatchKey(rows[i]) !in existing)
      && (forall i :: 0 <= i < |df| && BatchKey(df[i]) !in existing ==> df[i] in rows)
      && |rows| + |KeepKnown(df, BatchKey, existing)| == |df|
      && AppendPortfolio(tables, df, true, true, storedDate).tables[PortfolioTable] == tables[PortfolioTable] + rows
  {
    var existing := KeySet(ExistingRows(tables[PortfolioTable], BatchDates(df)), h => Key(h, storedDate));
    KeepNewCount(df, BatchKey, existing);
  }

  /** When the read fails, or finds nothing for the batch's dates, the whole
      batch is appended. */
  lemma UnreadableOrNothingStoredInsertsAll(tables: map<string, seq<Holding>>, df: seq<Holding>, readOk: bool,
                                            storedDate: int -> string)
    requires PortfolioTable in tables && AllDated(df) && df != []
    requires !readOk || ExistingRows(tables[PortfolioTable], BatchDates(df)) == []
    ensures AppendPortfolio(tables, df, readOk, true, storedDate).tables[PortfolioTable] == tables[PortfolioTable] + df
  {
  }

  lemma BatchOnItsDates(df: seq<Holding>)
    requires AllDated(df)
    ensures Filter(df, h => OnDates(h, BatchDates(df))) == df
  {
    FilterAll(df, h => OnDates(h, BatchDates(df)));
  }

  /** With the stored date written as the batch writes it, a row's stored
      key is its batch key. */
  lemma KeysAgree(rows: seq<Holding>, storedDate: int -> string)
    requires forall d :: storedDate(d) == IsoDate(d)
    ensures KeySet(rows, h => Key(h, storedDate)) == KeySet(rows, BatchKey)
  {
    assert forall h :: Key(h, storedDate) == BatchKey(h);
  }

  /** Read back after the whole batch was stored, with the dates written
      alike, no batch row is new. */
  lemma AgainAfterAll(stored: seq<Holding>, df: seq<Holding>, storedDate: int -> string)
    requires AllDated(df) && df != [] && forall d :: storedDate(d) == IsoDate(d)
    ensures RowsToInsert(df, stored + df, true, storedDate) == Success([])
  {
    var dates := BatchDates(df);
    BatchOnItsDates(df);
    FilterAppend(stored, df, h => OnDates(h, dates));
    var again := ExistingRows(stored + df, dates);
    assert again == ExistingRows(stored, dates) + df;
    KeysAgree(again, storedDate);
    KeepNewDisjoint(df, BatchKey, {});
    KeepNewSettles(df, BatchKey, {}, KeySet(again, BatchKey));
  }

  /** Read back after the new rows were stored, with the dates written
      alike, no batch row is new. */
  lemma AgainAfterNew(stored: seq<Holding>, df: seq<Holding>, storedDate: int -> string)
    requires AllDated(df) && df != [] && forall d :: storedDate(d) == IsoDate(d)
    requires ExistingRows(stored, BatchDates(df)) != []
    ensures var existing := ExistingRows(stored, BatchDates(df));
      RowsToInsert(df, stored + KeepNew(df, BatchKey, KeySet(existing, BatchKey)), true, storedDate) == Success([])
  {
    var dates := BatchDates(df);
    var existing := ExistingRows(stored, dates);
    var added := KeepNew(df, BatchKey, KeySet(existing, BatchKey));
    FilterAppend(stored, added, h => OnDates(h, dates));
    FilterAll(added, h => OnDates(h, dates));
    var again := ExistingRows(stored + added, dates);
    assert again == existing + added;
    KeysAgree(again, storedDate);
    KeepNewSettles(df, BatchKey, KeySet(existing, BatchKey), KeySet(again, BatchKey));
  }

  /** Idempotence, when the stored date reads back as the batch writes it:
      merging a dated batch a second time appends nothing. */
  lemma MergeTwiceInsertsNothing(tables: map<string, seq<Holding>>, df: seq<Holding>, readOk: bool,
                                 storedDate: int -> string)
    requires AllDated(df) && forall d :: storedDate(d) == IsoDate(d)
    ensures var once := AppendPortfolio(tables, df, readOk, true, storedDate);
      once.raised.None? && AppendPortfolio(once.tables, df, true, true, storedDate) == Outcome(once.tables, None)
  {
    if df != [] {
      var dates := BatchDates(df);
      if PortfolioTable !in tables {
        AgainAfterAll([], df, storedDate);
        assert [] + df == df;
      } else {
        var stored := tables[PortfolioTable];
        var existing := if readOk then ExistingRows(stored, dates) else [];
        if existing == [] {
          AgainAfterAll(stored, df, storedDate);
        } else {
          KeysAgree(existing, storedDate);
          var added := KeepNew(df, BatchKey, KeySet(existing, BatchKey));
          AgainAfterNew(stored, df, storedDate);
          if added == [] {
            assert stored + added == stored;
          }
        }
      }
    }
  }

  // ----- when the two date renderings differ -----

  /** The text has no `|`. */
  predicate NoBar(s: string) {
    forall i :: 0 <= i < |s| ==> s[i] != '|'
  }

  /** Where the first `|` of a text is, or its length if it has none. */
  function BarIndex(s: string): (r: nat)
    ensures r <= |s|
  {
    if s == [] || s[0] == '|' then 0 else 1 + BarIndex(s[1..])
  }

  /** The first `|` after a text without one is right after it. */
  lemma {:induction false} BarIndexAfter(a: string, b: string)
    requires NoBar(a)
    ensures BarIndex(a + "|" + b) == |a|
  {
    if a != [] {
      assert (a + "|" + b)[1..] == a[1..] + "|" + b;
      BarIndexAfter(a[1..], b);
    } else {
      assert a + "|" + b == "|" + b;
    }
  }

  /** A `|`-joined text splits back at its first `|`. */
  lemma SplitAtBar(a: string, b: string, c: string, d: string)
    requires NoBar(a) && NoBar(c) && a + "|" + b == c + "|" + d
    ensures a == c && b == d
  {
    var s := a + "|" + b;
    BarIndexAfter(a, b);
    BarIndexAfter(c, d);
    assert a == s[..|a|] && c == s[..|c|];
    assert b == s[|a| + 1..] && d == s[|c| + 1..];
  }

  /** Keys whose parts hold no `|` are equal only when their dates are
      written alike. */
  lemma KeyDates(h: Holding, date: int -> string, k: Holding, other: int -> string)
    requires h.group.date.Some? && k.group.date.Some?
    requires NoBar(PyStr(h.group.portfolio)) && NoBar(PyStr(k.group.portfolio))
    requires NoBar(date(h.group.date.value)) && NoBar(other(k.group.date.value))
    requires Key(h, date) == Key(k, other)
    ensures date(h.group.date.value) == other(k.group.date.value)
  {
    var hp := [PyStr(h.group.portfolio), date(h.group.date.value), PyStr(h.group.instrument), PyStr(h.group.positionType)];
    var kp := [PyStr(k.group.portfolio), other(k.group.date.value), PyStr(k.group.instrument), PyStr(k.group.positionType)];
    assert Join("|", hp) == hp[0] + "|" + (hp[1] + "|" + Join("|", hp[2..]));
    assert Join("|", kp) == kp[0] + "|" + (kp[1] + "|" + Join("|", kp[2..]));
    SplitAtBar(hp[0], hp[1] + "|" + Join("|", hp[2..]), kp[0], kp[1] + "|" + Join("|", kp[2..]));
    SplitAtBar(hp[1], Join("|", hp[2..]), kp[1], Join("|", kp[2..]));
  }

  /** `strftime` writes digits and dashes only. */
  lemma IsoDateNoBar(d: int)
    ensures NoBar(IsoDate(d))
  {
    var c := Civil.FromDayNumber(d);
    IntNoBar(c.year);
    IntNoBar(c.month);
    IntNoBar(c.day);
    NoBarJoin(IntToString(c.year), "-");
    NoBarJoin(IntToString(c.year) + "-", Pad2(c.month));
    NoBarJoin(IntToString(c.year) + "-" + Pad2(c.month), "-");
    NoBarJoin(IntToString(c.year) + "-" + Pad2(c.month) + "-", Pad2(c.day));
  }

  lemma IntNoBar(k: int)
    ensures NoBar(IntToString(k)) && NoBar(Pad2(k))
  {
    var n := if k < 0 then -k else k;
    assert forall i :: 0 <= i < |NatToString(n)| ==> '0' <= NatToString(n)[i] <= '9';
    NoBarJoin("-", NatToString(n));
    NoBarJoin("0", IntToString(k));
  }

  lemma NoBarJoin(a: string, b: string)
    requires NoBar(a) && NoBar(b)
    ensures NoBar(a + b)
  {
    assert forall i :: |a| <= i < |a + b| ==> (a + b)[i] == b[i - |a|];
  }

  /** A stored key whose date is not written as `strftime` writes dates
      never matches a batch key. */
  lemma NoKeyMatch(x: Holding, y: Holding, storedDate: int -> string)
    requires x.group.date.Some? && y.group.date.Some?
    requires NoBar(PyStr(x.group.portfolio)) && NoBar(PyStr(y.group.portfolio))
    requires NoBar(storedDate(y.group.date.value)) && storedDate(y.group.date.value) != IsoDate(x.group.date.value)
    ensures Key(y, storedDate) != BatchKey(x)
  {
    if Key(y, storedDate) == BatchKey(x) {
      IsoDateNoBar(x.group.date.value);
      KeyDates(x, IsoDate, y, storedDate);
      assert false;
    }
  }

  /** When the stored dates never read back as the batch writes them, and
      portfolio names hold no `|`, no stored key matches a batch key: a
      second merge appends the whole batch again. */
  lemma MismatchedDatesReinsert(stored: seq<Holding>, df: seq<Holding>, storedDate: int -> string)
    requires AllDated(df) && df != []
    requires forall d :: NoBar(storedDate(d))
    requires forall d, e :: storedDate(d) != IsoDate(e)
    requires forall i :: 0 <= i < |df| ==> NoBar(PyStr(df[i].group.portfolio))
    requires forall i :: 0 <= i < |stored| ==> NoBar(PyStr(stored[i].group.portfolio))
    ensures RowsToInsert(df, stored, true, storedDate) == Success(df)
  {
    var existing := ExistingRows(stored, BatchDates(df));
    if existing != [] {
      var keys := KeySet(existing, h => Key(h, storedDate));
      forall i, y | 0 <= i < |df| && y in existing
        ensures Key(y, storedDate) != BatchKey(df[i])
      {
        assert y in stored && y.group.date.Some?;
        var d, e := y.group.date.value, df[i].group.date.value;
        assert NoBar(storedDate(d)) && storedDate(d) != IsoDate(e);
        NoKeyMatch(df[i], y, storedDate);
      }
      KeepNewDisjoint(df, BatchKey, keys);
    }
  }

  // ----- run -----

  /** `pd.to_numeric(portfolio_id).astype("Int64")`: `NaN` becomes `<NA>`,
      a number with a fraction cannot be cast and raises. */
  function PortfolioIds(parse: Parsers, records: seq<Row>): (r: Result<seq<Option<int>>>)
    ensures r.Success? ==> |r.value| == |records|
  {
    if records == [] then Success([])
    else
      var m := parse.number(Cell(records[0], "portfolio_id"));
      if m.Some? && m.value % Unit != 0 then Failure(TypeErrorRaised)
      else match PortfolioIds(parse, records[1..])
        case Failure(e) => Failure(e)
        case Success(rest) => Success([if m.Some? then Some(m.value / Unit) else None] + rest)
  }

  /** One record after the conversions of `run`. */
  function ToLine(parse: Parsers, record: Row, id: Option<int>): Line {
    Line(
      Group(parse.date(Cell(record, "date")), Cell(record, "portfolio_name"), id,
            Cell(record, "instrument_name"), Cell(record, "position_type"), Cell(record, "sector_name")),
      parse.number(Cell(record, "asset_value")),
      parse.number(Cell(record, "quantity")),
      parse.number(Cell(record, "pct_net_asset_value")),
      parse.number(Cell(record, "pct_asset_value")),
      Cell(record, "book_name"))
  }

  function ToLines(parse: Parsers, records: seq<Row>, ids: seq<Option<int>>): (r: seq<Line>)
    requires |ids| == |records|
    ensures |r| == |records|
  {
    seq(|records|, i requires 0 <= i < |records| => ToLine(parse, records[i], ids[i]))
  }

  predicate Dated(h: Holding) {
    h.group.date.Some?
  }

  /** No key column of the row is null.  `groupby` leaves out every row
      with a null in a key column (its default `dropna=True`). */
  predicate KeyComplete(l: Line) {
    && l.group.date.Some? && l.group.portfolio != Null && l.group.portfolioId.Some?
    && l.group.instrument != Null && l.group.positionType != Null && l.group.sector != Null
  }

  /** Every aggregated row stands for a group some row belongs to. */
  lemma {:induction false} AggregateGroupsOfLines(lines: seq<Line>)
    ensures forall h :: h in Aggregate(lines) ==> InGroup(lines, h.group)
  {
    if lines != [] {
      var init := lines[..|lines| - 1];
      var last := lines[|lines| - 1];
      AggregateGroupsOfLines(init);
      AddGroups(Aggregate(init), last);
      forall h | h in Aggregate(lines)
        ensures InGroup(lines, h.group)
      {
        if h.group == last.group {
          assert lines[|lines| - 1].group == h.group;
        } else {
          var k :| 0 <= k < |init| && init[k].group == h.group;
          assert lines[k] == init[k];
        }
      }
    }
  }

  /** A row of `Add(hs, l)` has `l`'s group or the group of a row of `hs`. */
  lemma {:induction false} AddGroups(hs: seq<Holding>, l: Line)
    ensures forall h :: h in Add(hs, l) ==> h.group == l.group || exists k :: k in hs && k.group == h.group
  {
    if hs != [] && hs[0].group != l.group {
      AddGroups(hs[1..], l);
      assert forall k :: k in hs[1..] ==> k in hs;
    }
  }

  /** What `run` hands to `append_portfolio_data_simple`, or the exception
      raised before; `None` when there is no data.  Counting positions reads
      `position_type` first; the aggregation needs every desired column and
      drops the rows with a null key. */
  function CleanBatch(parse: Parsers, records: seq<Row>): (r: Option<Result<seq<Holding>>>)
    ensures r.None? <==> EmptyFrame(records)
    ensures r.Some? && r.value.Success? ==> AllDated(r.value.value) && MissingColumns(records, DesiredColumns) == []
    ensures r.Some? && r.value.Success? ==> forall h :: h in r.value.value ==>
      h.group.portfolio != Null && h.group.portfolioId.Some? && h.group.instrument != Null
      && h.group.positionType != Null && h.group.sector != Null
  {
    if EmptyFrame(records) then None
    else if !HasColumn(records, "position_type") then Some(Failure(KeyErrorRaised))
    else
      var ids := PortfolioIds(parse, records);
      if HasColumn(records, "portfolio_id") && ids.Failure? then Some(Failure(ids.error))
      else if MissingColumns(records, DesiredColumns) != [] then Some(Failure(KeyErrorRaised))
      else
        var lines := Filter(ToLines(parse, records, ids.value), KeyComplete);
        AggregateGroupsOfLines(lines);
        Some(Success(Filter(Aggregate(lines), Dated)))
  }

  /** `run` from the fetched records on. */
  function Run(parse: Parsers, records: seq<Row>, tables: map<string, seq<Holding>>, readOk: bool, accepted: bool,
               storedDate: int -> string): Outcome<Holding> {
    match CleanBatch(parse, records)
    case None => Outcome(tables, None)
    case Some(Failure(e)) => Outcome(tables, Some(e))
    case Some(Success(df)) => AppendPortfolio(tables, df, readOk, accepted, storedDate)
  }

  /** A frame lacking a desired column raises before it writes anything. */
  lemma MissingColumnWritesNothing(parse: Parsers, records: seq<Row>, tables: map<string, seq<Holding>>,
                                   readOk: bool, accepted: bool, storedDate: int -> string, c: string)
    requires c in DesiredColumns && !HasColumn(records, c) && !EmptyFrame(records)
    ensures Run(parse, records, tables, readOk, accepted, storedDate).tables == tables
    ensures Run(parse, records, tables, readOk, accepted, storedDate).raised.Some?
  {
    assert c in MissingColumns(records, DesiredColumns);
  }
}
