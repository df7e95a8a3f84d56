/** The fetcher of `src/api4.py`: `MaraviAPI.fetch_data` asks for page 0
    of a map of portfolios and flattens it into one row per instrument
    position (`POSITION`, cleaned for PostgreSQL) and one row per financial
    transaction (`PROVISION`), re-authenticating and starting over on a
    401. */
module PortfolioApi {
  import opened Wrappers
  import opened Json
  import opened Http

  const ObjectsKey := "objects"
  const PositionType := "POSITION"
  const ProvisionType := "PROVISION"
  /** The `sector_name` every provision row carries. */
  const ProvisionSector := "Não utilizar"

  // ----- _clean_data_for_postgres -----

  /** The value `_clean_data_for_postgres` stores for `v`: a dictionary or
      list becomes its `json.dumps` text, or `None` when it is empty; any
      other value is kept. */
  function CleanValue(v: Value): (r: Value)
    ensures !r.Arr? && !r.Obj?
    ensures !v.Arr? && !v.Obj? ==> r == v
    ensures (v.Arr? || v.Obj?) ==> (r == Null <==> !Truthy(v))
  {
    if v.Arr? || v.Obj? then (if Truthy(v) then Str(Dumps(v)) else Null) else v
  }

  /** No value is a list or a dictionary. */
  predicate Flat(fields: Fields) {
    forall i :: 0 <= i < |fields| ==> !fields[i].1.Arr? && !fields[i].1.Obj?
  }

  lemma {:induction false} SetFieldFlat(fields: Fields, k: string, v: Value)
    requires Flat(fields) && !v.Arr? && !v.Obj?
    ensures Flat(SetField(fields, k, v))
  {
    if fields != [] && fields[0].0 != k {
      assert Flat(fields[1..]) by {
        forall i | 0 <= i < |fields[1..]| ensures !fields[1..][i].1.Arr? && !fields[1..][i].1.Obj? {
          assert fields[1..][i] == fields[i + 1];
        }
      }
      SetFieldFlat(fields[1..], k, v);
    }
  }

  /** The dictionary `_clean_data_for_postgres` builds: starting empty, each
      item of the position, in order, assigns its cleaned value. */
  function Cleaned(fields: Fields): (r: Fields)
    ensures DistinctKeys(r) && Flat(r)
    decreases |fields|
  {
    if fields == [] then []
    else
      var last := fields[|fields| - 1];
      var init := Cleaned(fields[..|fields| - 1]);
      SetFieldDistinct(init, last.0, CleanValue(last.1));
      SetFieldFlat(init, last.0, CleanValue(last.1));
      SetField(init, last.0, CleanValue(last.1))
  }

  /** The same keys in the same order, each value cleaned. */
  function CleanEach(fields: Fields): (r: Fields)
    ensures |r| == |fields|
  {
    seq(|fields|, i requires 0 <= i < |fields| => (fields[i].0, CleanValue(fields[i].1)))
  }

  /** For a dictionary, cleaning keeps every key in its place and cleans
      each value. */
  lemma {:induction false} CleanedIsPointwise(fields: Fields)
    requires DistinctKeys(fields)
    ensures Cleaned(fields) == CleanEach(fields)
    decreases |fields|
  {
    if fields != [] {
      var n := |fields| - 1;
      var init := fields[..n];
      var last := fields[n];
      assert Cleaned(fields) == SetField(Cleaned(init), last.0, CleanValue(last.1));
      DistinctKeysPrefix(fields, n);
      CleanedIsPointwise(init);
      CleanEachLacksKey(fields);
      SetFieldNew(CleanEach(init), last.0, CleanValue(last.1));
      CleanEachSnoc(fields);
    }
  }

  lemma DistinctKeysPrefix(fields: Fields, n: nat)
    requires DistinctKeys(fields) && n <= |fields|
    ensures DistinctKeys(fields[..n])
  {
    forall i, j | 0 <= i < j < n ensures fields[..n][i].0 != fields[..n][j].0 {
      assert fields[..n][i] == fields[i] && fields[..n][j] == fields[j];
    }
  }

  /** The last key of a dictionary is not among the keys before it. */
  lemma CleanEachLacksKey(fields: Fields)
    requires DistinctKeys(fields) && fields != []
    ensures !HasKey(CleanEach(fields[..|fields| - 1]), fields[|fields| - 1].0)
  {
    var n := |fields| - 1;
    var each := CleanEach(fields[..n]);
    forall i | 0 <= i < |each| ensures each[i].0 != fields[n].0 {
      assert each[i].0 == fields[..n][i].0 == fields[i].0;
    }
  }

  lemma CleanEachSnoc(fields: Fields)
    requires fields != []
    ensures var n := |fields| - 1;
      CleanEach(fields[..n]) + [(fields[n].0, CleanValue(fields[n].1))] == CleanEach(fields)
  {
    var n := |fields| - 1;
    var lhs := CleanEach(fields[..n]) + [(fields[n].0, CleanValue(fields[n].1))];
    forall i | 0 <= i < |fields| ensures lhs[i] == CleanEach(fields)[i] {
      if i < n {
        assert fields[..n][i] == fields[i];
      }
    }
  }

  /** `Get` on a cleaned dictionary. */
  function CleanOption(o: Option<Value>): Option<Value> {
    match o
    case None => None
    case Some(v) => Some(CleanValue(v))
  }

  lemma {:induction false} GetCleanEach(fields: Fields, k: string)
    ensures Get(CleanEach(fields), k) == CleanOption(Get(fields, k))
  {
    if fields != [] && fields[0].0 != k {
      assert CleanEach(fields)[1..] == CleanEach(fields[1..]);
      GetCleanEach(fields[1..], k);
    }
  }

  /** A cleaned position holds the cleaned value of each of its keys, and
      no key it did not have. */
  lemma CleanedGet(fields: Fields, k: string)
    requires DistinctKeys(fields)
    ensures Get(Cleaned(fields), k) == CleanOption(Get(fields, k))
  {
    CleanedIsPointwise(fields);
    GetCleanEach(fields, k);
  }

  /** Cleaning twice is cleaning once. */
  lemma CleanedIdempotent(fields: Fields)
    ensures Cleaned(Cleaned(fields)) == Cleaned(fields)
  {
    var once := Cleaned(fields);
    CleanedIsPointwise(once);
    assert CleanEach(once) == once;
  }

  // ----- the rows -----

  /** `position.copy()` with the portfolio's fields assigned over it; the
      assignments override same-named fields of the position. */
  function WithPortfolio(position: Fields, name: Value, id: string, date: Value): Fields {
    SetField(SetField(SetField(SetField(position, "portfolio_name", name), "portfolio_id", Str(id)), "date", date),
             "position_type", Str(PositionType))
  }

  predicate PortfolioKey(k: string) {
    k == "portfolio_name" || k == "portfolio_id" || k == "date" || k == "position_type"
  }

  /** A `POSITION` row. */
  function PositionRecord(position: Fields, name: Value, id: string, date: Value): Fields {
    Cleaned(WithPortfolio(position, name, id, date))
  }

  /** Assigning the portfolio's fields keeps a dictionary a dictionary. */
  lemma WithPortfolioDistinct(position: Fields, name: Value, id: string, date: Value)
    requires DistinctKeys(position)
    ensures DistinctKeys(WithPortfolio(position, name, id, date))
  {
    var f1 := SetField(position, "portfolio_name", name);
    var f2 := SetField(f1, "portfolio_id", Str(id));
    var f3 := SetField(f2, "date", date);
    SetFieldDistinct(position, "portfolio_name", name);
    SetFieldDistinct(f1, "portfolio_id", Str(id));
    SetFieldDistinct(f2, "date", date);
    SetFieldDistinct(f3, "position_type", Str(PositionType));
  }

  /** A position row carries the portfolio's name, id and date (cleaned)
      and the `POSITION` type, whatever the position held under those keys,
      and every other field of the position, cleaned. */
  lemma PositionRecordFields(position: Fields, name: Value, id: string, date: Value)
    requires DistinctKeys(position)
    ensures var r := PositionRecord(position, name, id, date);
      && Get(r, "portfolio_name") == Some(CleanValue(name))
      && Get(r, "portfolio_id") == Some(Str(id))
      && Get(r, "date") == Some(CleanValue(date))
      && Get(r, "position_type") == Some(Str(PositionType))
      && forall k :: !PortfolioKey(k) ==> Get(r, k) == CleanOption(Get(position, k))
  {
    var w := WithPortfolio(position, name, id, date);
    WithPortfolioDistinct(position, name, id, date);
    WithPortfolioGet(position, name, id, date);
    CleanedGet(w, "portfolio_name");
    CleanedGet(w, "portfolio_id");
    CleanedGet(w, "date");
    CleanedGet(w, "position_type");
    forall k | !PortfolioKey(k) ensures Get(Cleaned(w), k) == CleanOption(Get(position, k)) {
      CleanedGet(w, k);
    }
  }

  /** What the four assignments leave under each key. */
  lemma WithPortfolioGet(position: Fields, name: Value, id: string, date: Value)
    ensures var w := WithPortfolio(position, name, id, date);
      && Get(w, "portfolio_name") == Some(name)
      && Get(w, "portfolio_id") == Some(Str(id))
      && Get(w, "date") == Some(date)
      && Get(w, "position_type") == Some(Str(PositionType))
      && forall k :: !PortfolioKey(k) ==> Get(w, k) == Get(position, k)
  {
  }

  /** A `PROVISION` row, built from a financial transaction. */
  function ProvisionRecord(transaction: Fields, name: Value, id: string, date: Value): Fields {
    ProvisionColumns(name, id, date, GetOr(transaction, "category_name", Null),
                     GetOr(transaction, "financial_value", Int(0)), GetOr(transaction, "book_name", Null),
                     GetOr(transaction, "pct_net_asset_value", Int(0)))
  }

  /** The columns of a provision row, in the order the source lists them. */
  function ProvisionColumns(name: Value, id: string, date: Value, category: Value, value: Value, book: Value,
                            pctNetAssetValue: Value): Fields {
    [ ("portfolio_name", name),
      ("portfolio_id", Str(id)),
      ("date", date),
      ("instrument_name", category),
      ("quantity", Int(1)),
      ("price", value),
      ("asset_value", value),
      ("book_name", book),
      ("position_type", Str(ProvisionType)),
      ("pct_net_asset_value", pctNetAssetValue),
      ("pct_asset_value", Null),
      ("sector_name", Str(ProvisionSector)) ]
  }

  /** A provision row is of the `PROVISION` type and names its portfolio. */
  lemma ProvisionColumnsType(name: Value, id: string, date: Value, category: Value, value: Value, book: Value,
                             pctNetAssetValue: Value)
    ensures var r := ProvisionColumns(name, id, date, category, value, book, pctNetAssetValue);
      && Get(r, "position_type") == Some(Str(ProvisionType))
      && Get(r, "portfolio_id") == Some(Str(id))
  {
    var r := ProvisionColumns(name, id, date, category, value, book, pctNetAssetValue);
    ProvisionColumnsDistinct(name, id, date, category, value, book, pctNetAssetValue);
    GetMember(r, "position_type", Str(ProvisionType));
    GetMember(r, "portfolio_id", Str(id));
  }

  /** A provision row is priced at the transaction's financial value for a
      quantity of 1. */
  lemma ProvisionColumnsPrice(name: Value, id: string, date: Value, category: Value, value: Value, book: Value,
                              pctNetAssetValue: Value)
    ensures var r := ProvisionColumns(name, id, date, category, value, book, pctNetAssetValue);
      && Get(r, "quantity") == Some(Int(1))
      && Get(r, "price") == Some(value)
      && Get(r, "asset_value") == Some(value)
  {
    var r := ProvisionColumns(name, id, date, category, value, book, pctNetAssetValue);
    ProvisionColumnsDistinct(name, id, date, category, value, book, pctNetAssetValue);
    GetMember(r, "quantity", Int(1));
    GetMember(r, "price", value);
    GetMember(r, "asset_value", value);
  }

  /** A provision row never repeats a column. */
  lemma ProvisionColumnsDistinct(name: Value, id: string, date: Value, category: Value, value: Value, book: Value,
                                 pctNetAssetValue: Value)
    ensures DistinctKeys(ProvisionColumns(name, id, date, category, value, book, pctNetAssetValue))
  {
  }

  /** `Some(rows + rest)`, or `None` when the rest failed. */
  function Prepend(rows: seq<Value>, rest: Option<seq<Value>>): Option<seq<Value>> {
    match rest
    case None => None
    case Some(more) => Some(rows + more)
  }

  /** One row per item, built from the item's fields, in order; an item that
      is not a dictionary raises (`.copy()`, the assignments or `.get` fail
      on it). */
  function Rows(items: seq<Value>, build: Fields -> Fields): (r: Option<seq<Value>>)
    ensures r.Some? <==> forall i :: 0 <= i < |items| ==> items[i].Obj?
    ensures r.Some? ==> |r.value| == |items|
    decreases |items|
  {
    if items == [] then Some([])
    else if !items[0].Obj? then None
    else
      assert forall i :: 1 <= i < |items| ==> items[i] == items[1..][i - 1];
      Prepend([Obj(build(items[0].fields))], Rows(items[1..], build))
  }

  /** Each row is built from the item in the same place. */
  lemma {:induction false} RowsPointwise(items: seq<Value>, build: Fields -> Fields)
    requires Rows(items, build).Some?
    ensures forall i :: 0 <= i < |items| ==> Rows(items, build).value[i] == Obj(build(items[i].fields))
    decreases |items|
  {
    if items != [] {
      var tail := items[1..];
      RowsPointwise(tail, build);
      var rest := Rows(tail, build).value;
      var rows := Rows(items, build).value;
      assert rows == [Obj(build(items[0].fields))] + rest;
      forall i | 1 <= i < |items| ensures rows[i] == Obj(build(items[i].fields)) {
        assert rows[i] == rest[i - 1] && items[i] == tail[i - 1];
      }
    }
  }

  /** The position row of each instrument position of a portfolio. */
  function PositionBuilder(name: Value, id: string, date: Value): Fields -> Fields {
    (position: Fields) => PositionRecord(position, name, id, date)
  }

  /** The provision row of each financial transaction of a portfolio. */
  function ProvisionBuilder(name: Value, id: string, date: Value): Fields -> Fields {
    (transaction: Fields) => ProvisionRecord(transaction, name, id, date)
  }

  /** `portfolio_data.get(k, [])`, iterated; `None` when it raises. */
  function Listed(fields: Fields, k: string): Option<seq<Value>> {
    Iterate(GetOr(fields, k, Arr([])))
  }

  /** The rows of one portfolio: its positions, then its provisions.  A
      portfolio that is not a dictionary raises at `.get`; so does a
      position or transaction list that cannot be iterated. */
  function PortfolioRows(id: string, data: Value): Option<seq<Value>> {
    if !data.Obj? then None
    else
      var name := GetOr(data.fields, "name", Null);
      var date := GetOr(data.fields, "date", Null);
      match Listed(data.fields, "instrument_positions")
      case None => None
      case Some(items) =>
        match Rows(items, PositionBuilder(name, id, date))
        case None => None
        case Some(positions) =>
          match Listed(data.fields, "financial_transaction_positions")
          case None => None
          case Some(transactions) => Prepend(positions, Rows(transactions, ProvisionBuilder(name, id, date)))
  }

  /** All rows, portfolio by portfolio in the map's order. */
  function Flattened(portfolios: Fields): Option<seq<Value>>
    decreases |portfolios|
  {
    if portfolios == [] then Some([])
    else
      match PortfolioRows(portfolios[0].0, portfolios[0].1)
      case None => None
      case Some(rows) => Prepend(rows, Flattened(portfolios[1..]))
  }

  /** `Prepend` composes. */
  lemma PrependPrepend(a: seq<Value>, b: seq<Value>, rest: Option<seq<Value>>)
    ensures Prepend(a, Prepend(b, rest)) == Prepend(a + b, rest)
  {
    if rest.Some? {
      assert a + (b + rest.value) == (a + b) + rest.value;
    }
  }

  lemma PrependNothing(rest: Option<seq<Value>>)
    ensures Prepend([], rest) == rest
  {
    if rest.Some? {
      assert [] + rest.value == rest.value;
    }
  }

  // ----- what the flattening promises -----

  /** How many instrument positions a portfolio lists. */
  function PositionCount(data: Value): nat {
    if !data.Obj? then 0
    else
      var items := Listed(data.fields, "instrument_positions");
      if items.Some? then |items.value| else 0
  }

  /** The number of rows a portfolio yields: its positions plus its
      transactions. */
  function RowCount(data: Value): nat {
    if !data.Obj? then 0
    else
      var transactions := Listed(data.fields, "financial_transaction_positions");
      PositionCount(data) + (if transactions.Some? then |transactions.value| else 0)
  }

  function TotalRowCount(portfolios: Fields): nat
    decreases |portfolios|
  {
    if portfolios == [] then 0 else RowCount(portfolios[0].1) + TotalRowCount(portfolios[1..])
  }

  /** When flattening succeeds it yields, over all portfolios, one row per
      instrument position and one per financial transaction. */
  lemma {:induction false} FlattenedCount(portfolios: Fields)
    requires Flattened(portfolios).Some?
    ensures |Flattened(portfolios).value| == TotalRowCount(portfolios)
    decreases |portfolios|
  {
    if portfolios != [] {
      FlattenedCount(portfolios[1..]);
    }
  }

  /** A row that is a dictionary whose `position_type` is `t`. */
  predicate TypedAs(row: Value, t: string) {
    row.Obj? && Get(row.fields, "position_type") == Some(Str(t))
  }

  /** A value found in a decoded dictionary is decoded, and so is each
      thing iterating it yields. */
  lemma {:induction false} ListedDecoded(fields: Fields, k: string)
    requires forall i :: 0 <= i < |fields| ==> Decoded(fields[i].1)
    requires Listed(fields, k).Some?
    ensures forall i :: 0 <= i < |Listed(fields, k).value| ==> Decoded(Listed(fields, k).value[i])
  {
    var v := GetOr(fields, k, Arr([]));
    assert Decoded(v) by {
      GetDecoded(fields, k);
    }
  }

  lemma {:induction false} GetDecoded(fields: Fields, k: string)
    requires forall i :: 0 <= i < |fields| ==> Decoded(fields[i].1)
    ensures HasKey(fields, k) ==> Decoded(Get(fields, k).value)
  {
    if fields != [] && fields[0].0 != k {
      HasKeyTail(fields, k);
      assert forall i :: 0 <= i < |fields[1..]| ==> fields[1..][i] == fields[i + 1];
      GetDecoded(fields[1..], k);
    }
  }

  /** A portfolio that flattens lists its positions and transactions, and
      its rows are the position rows followed by the provision rows. */
  lemma PortfolioRowsSplit(id: string, data: Value)
    requires PortfolioRows(id, data).Some?
    ensures data.Obj?
    ensures var name := GetOr(data.fields, "name", Null);
      var date := GetOr(data.fields, "date", Null);
      var items := Listed(data.fields, "instrument_positions");
      var transactions := Listed(data.fields, "financial_transaction_positions");
      && items.Some? && transactions.Some?
      && Rows(items.value, PositionBuilder(name, id, date)).Some?
      && Rows(transactions.value, ProvisionBuilder(name, id, date)).Some?
      && PortfolioRows(id, data).value
         == Rows(items.value, PositionBuilder(name, id, date)).value
            + Rows(transactions.value, ProvisionBuilder(name, id, date)).value
  {
  }

  /** Within a portfolio of a decoded answer, its position rows all come
      before its provision rows. */
  lemma PositionsPrecedeProvisions(id: string, data: Value)
    requires Decoded(data) && PortfolioRows(id, data).Some?
    ensures var rows := PortfolioRows(id, data).value;
      var n := PositionCount(data);
      && n <= |rows|
      && (forall i :: 0 <= i < n ==> TypedAs(rows[i], PositionType))
      && (forall i :: n <= i < |rows| ==> TypedAs(rows[i], ProvisionType))
  {
    PortfolioRowsSplit(id, data);
    var name := GetOr(data.fields, "name", Null);
    var date := GetOr(data.fields, "date", Null);
    var items := Listed(data.fields, "instrument_positions").value;
    var transactions := Listed(data.fields, "financial_transaction_positions").value;
    ListedDecoded(data.fields, "instrument_positions");
    PositionRowsTyped(items, name, id, date);
    ProvisionRowsTyped(transactions, name, id, date);
    TypedRuns(Rows(items, PositionBuilder(name, id, date)).value, Rows(transactions, ProvisionBuilder(name, id, date)).value);
  }

  /** Rows of one type followed by rows of another. */
  lemma TypedRuns(first: seq<Value>, second: seq<Value>)
    requires forall i :: 0 <= i < |first| ==> TypedAs(first[i], PositionType)
    requires forall i :: 0 <= i < |second| ==> TypedAs(second[i], ProvisionType)
    ensures forall i :: 0 <= i < |first| ==> TypedAs((first + second)[i], PositionType)
    ensures forall i :: |first| <= i < |first + second| ==> TypedAs((first + second)[i], ProvisionType)
  {
    forall i | |first| <= i < |first + second| ensures TypedAs((first + second)[i], ProvisionType) {
      assert (first + second)[i] == second[i - |first|];
    }
  }

  /** Every position row is of the `POSITION` type. */
  lemma PositionRowsTyped(items: seq<Value>, name: Value, id: string, date: Value)
    requires forall i :: 0 <= i < |items| ==> Decoded(items[i])
    requires Rows(items, PositionBuilder(name, id, date)).Some?
    ensures forall i :: 0 <= i < |items| ==> TypedAs(Rows(items, PositionBuilder(name, id, date)).value[i], PositionType)
  {
    RowsPointwise(items, PositionBuilder(name, id, date));
    forall i | 0 <= i < |items| ensures TypedAs(Rows(items, PositionBuilder(name, id, date)).value[i], PositionType) {
      assert Decoded(items[i]);
      PositionRecordFields(items[i].fields, name, id, date);
    }
  }

  /** Every provision row is of the `PROVISION` type. */
  lemma ProvisionRowsTyped(items: seq<Value>, name: Value, id: string, date: Value)
    requires Rows(items, ProvisionBuilder(name, id, date)).Some?
    ensures forall i :: 0 <= i < |items| ==> TypedAs(Rows(items, ProvisionBuilder(name, id, date)).value[i], ProvisionType)
  {
    RowsPointwise(items, ProvisionBuilder(name, id, date));
    forall i | 0 <= i < |items| ensures TypedAs(Rows(items, ProvisionBuilder(name, id, date)).value[i], ProvisionType) {
      var t := items[i].fields;
      ProvisionColumnsType(name, id, date, GetOr(t, "category_name", Null), GetOr(t, "financial_value", Int(0)),
                           GetOr(t, "book_name", Null), GetOr(t, "pct_net_asset_value", Int(0)));
    }
  }

  // ----- one pass -----

  /** The `try` block of `fetch_data` on the answer to its one request.  A
      body that is not a dictionary raises (at `.get` or `.keys()`); one
      without `objects` gives an empty result; a map of portfolios that is
      not a dictionary raises at `.items()`. */
  function FetchAttempt(r: Response): Attempt {
    match r
    case HttpError(status) => ErrorAttempt(status)
    case Broken => Failed
    case Ok(result) =>
      if !result.Obj? then Failed
      else if !HasKey(result.fields, ObjectsKey) then Collected([])
      else
        var portfolios := GetOr(result.fields, ObjectsKey, Obj([]));
        if !portfolios.Obj? then Failed
        else match Flattened(portfolios.fields)
          case None => Failed
          case Some(rows) => Collected(rows)
  }

  /** The pass with each token: the answer to page 0, the only page asked
      for. */
  function Pass(server: Server): nat -> Attempt {
    (token: nat) => FetchAttempt(server.respond(token, 0))
  }

  /** `fetch_data(endpoint, params)` on a session; the retry after a 401
      passes the same arguments. */
  function Fetched(server: Server, depth: nat, s: Session): (seq<Value>, Session) {
    Fetch(server, Pass(server), Pass(server), depth, s)
  }

  /** A successful pass returns one row per position and transaction. */
  lemma AttemptCount(r: Response)
    requires FetchAttempt(r).Collected? && HasKey(r.body.fields, ObjectsKey)
    ensures |FetchAttempt(r).records| == TotalRowCount(GetOr(r.body.fields, ObjectsKey, Obj([])).fields)
  {
    FlattenedCount(GetOr(r.body.fields, ObjectsKey, Obj([])).fields);
  }

  /** The `MaraviAPI` client of `src/api4.py`. */
  class Client {
    const server: Server
    var token: Option<nat>
    var authRequests: nat

    constructor (server: Server)
      ensures this.server == server
      ensures token == None && authRequests == 0
    {
      this.server := server;
      token := None;
      authRequests := 0;
    }

    /** `authenticate()`; `ok` is false where the source raises. */
    method Authenticate() returns (ok: bool)
      modifies this
      ensures ok == server.authenticates(old(authRequests))
      ensures Session(token, authRequests) == Authenticated(server, old(Session(token, authRequests)))
    {
      ok := server.authenticates(authRequests);
      if ok {
        token := Some(authRequests);
      }
      authRequests := authRequests + 1;
    }

    /** `_clean_data_for_postgres(position)`. */
    method CleanForPostgres(position: Fields) returns (cleaned: Fields)
      ensures cleaned == Cleaned(position)
    {
      cleaned := [];
      for i := 0 to |position|
        invariant cleaned == Cleaned(position[..i])
      {
        var (key, value) := position[i];
        assert position[..i + 1][..i] == position[..i];
        if value.Obj? {
          cleaned := SetField(cleaned, key, if Truthy(value) then Str(Dumps(value)) else Null);
        } else if value.Arr? {
          cleaned := SetField(cleaned, key, if Truthy(value) then Str(Dumps(value)) else Null);
        } else {
          cleaned := SetField(cleaned, key, value);
        }
      }
      assert position[..|position|] == position;
    }

    /** The loop over a portfolio's instrument positions. */
    method AddPositions(items: seq<Value>, name: Value, id: string, date: Value) returns (rows: Option<seq<Value>>)
      ensures rows == Rows(items, PositionBuilder(name, id, date))
    {
      var collected := [];
      assert items[0..] == items;
      PrependNothing(Rows(items, PositionBuilder(name, id, date)));
      for i := 0 to |items|
        invariant Rows(items, PositionBuilder(name, id, date)) == Prepend(collected, Rows(items[i..], PositionBuilder(name, id, date)))
      {
        var position := items[i];
        assert items[i..][1..] == items[i + 1..];
        if !position.Obj? {
          return None;
        }
        var record := WithPortfolio(position.fields, name, id, date);
        var cleaned := CleanForPostgres(record);
        PrependPrepend(collected, [Obj(cleaned)], Rows(items[i + 1..], PositionBuilder(name, id, date)));
        collected := collected + [Obj(cleaned)];
      }
      assert items[|items|..] == [];
      assert collected + [] == collected;
      return Some(collected);
    }

    /** The loop over a portfolio's financial transactions. */
    method AddProvisions(items: seq<Value>, name: Value, id: string, date: Value) returns (rows: Option<seq<Value>>)
      ensures rows == Rows(items, ProvisionBuilder(name, id, date))
    {
      var collected := [];
      assert items[0..] == items;
      PrependNothing(Rows(items, ProvisionBuilder(name, id, date)));
      for i := 0 to |items|
        invariant Rows(items, ProvisionBuilder(name, id, date)) == Prepend(collected, Rows(items[i..], ProvisionBuilder(name, id, date)))
      {
        var transaction := items[i];
        assert items[i..][1..] == items[i + 1..];
        if !transaction.Obj? {
          return None;
        }
        var record := ProvisionRecord(transaction.fields, name, id, date);
        PrependPrepend(collected, [Obj(record)], Rows(items[i + 1..], ProvisionBuilder(name, id, date)));
        collected := collected + [Obj(record)];
      }
      assert items[|items|..] == [];
      assert collected + [] == collected;
      return Some(collected);
    }

    /** The loop over the map of portfolios. */
    method FlattenPortfolios(portfolios: Fields) returns (rows: Option<seq<Value>>)
      ensures rows == Flattened(portfolios)
    {
      var collected := [];
      assert portfolios[0..] == portfolios;
      PrependNothing(Flattened(portfolios));
      for i := 0 to |portfolios|
        invariant Flattened(portfolios) == Prepend(collected, Flattened(portfolios[i..]))
      {
        var (id, data) := portfolios[i];
        assert portfolios[i..][1..] == portfolios[i + 1..];
        if !data.Obj? {
          return None;
        }
        var name := GetOr(data.fields, "name", Null);
        var date := GetOr(data.fields, "date", Null);
        var items := Listed(data.fields, "instrument_positions");
        if items.None? {
          return None;
        }
        var positions := AddPositions(items.value, name, id, date);
        if positions.None? {
          return None;
        }
        var transactions := Listed(data.fields, "financial_transaction_positions");
        if transactions.None? {
          return None;
        }
        var provisions := AddProvisions(transactions.value, name, id, date);
        if provisions.None? {
          return None;
        }
        var added := positions.value + provisions.value;
        assert PortfolioRows(id, data) == Some(added);
        PrependPrepend(collected, added, Flattened(portfolios[i + 1..]));
        collected := collected + added;
      }
      assert portfolios[|portfolios|..] == [];
      assert collected + [] == collected;
      return Some(collected);
    }

    /** The `try` block of `fetch_data` with the credentials held. */
    method FetchPage() returns (a: Attempt)
      requires token.Some?
      ensures a == FetchAttempt(server.respond(token.value, 0))
    {
      var result;
      match server.respond(token.value, 0) {
        case HttpError(status) => return ErrorAttempt(status);
        case Broken => return Failed;
        case Ok(body) => result := body;
      }
      if !result.Obj? {
        return Failed;
      }
      if !HasKey(result.fields, ObjectsKey) {
        return Collected([]);
      }
      var portfolios := GetOr(result.fields, ObjectsKey, Obj([]));
      if !portfolios.Obj? {
        return Failed;
      }
      var rows := FlattenPortfolios(portfolios.fields);
      if rows.None? {
        return Failed;
      }
      return Collected(rows.value);
    }

    /** `fetch_data(endpoint, params)`, with at most `depth` nested retries
        after a 401. */
    method FetchData(depth: nat) returns (records: seq<Value>)
      modifies this
      ensures (records, Session(token, authRequests)) == Fetched(server, depth, old(Session(token, authRequests)))
      decreases depth
    {
      if token.None? {
        var ok := Authenticate();
        if !ok {
          return [];
        }
      }
      var attempt := FetchPage();
      match attempt {
        case Collected(r) => records := r;
        case Failed => records := [];
        case Unauthorized =>
          if depth == 0 {
            return [];
          }
          var ok := Authenticate();
          if !ok {
            return [];
          }
          records := FetchData(depth - 1);
      }
    }
  }
}
