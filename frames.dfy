/** The data frames the loaders build from fetched records, and the tables
    they write to.  A frame is a sequence of rows, each row a dictionary of
    cells; a cell a record does not have reads as `Null`, the one null the
    model knows.  A database is a map from table names to the rows stored
    in them, in insertion order; `src/db.py` is not part of this model, so a
    read or an append that the database refuses is an answer given to the
    model, not something it computes. */
module Frames {
  import opened Wrappers
  import opened Json

  type Row = Fields

  /** pandas' conversions with `errors="coerce"`: `to_datetime` (a day
      number, or `None` for `NaT`) and `to_numeric` (a number counted in
      millionths, or `None` for `NaN`).  They are given, not modelled. */
  datatype Parsers = Parsers(date: Value -> Option<int>, number: Value -> Option<int>)

  /** The same conversions as they change one cell of a frame:
      `to_numeric` and `to_datetime` with `errors="coerce"`, and
      `astype("Int64")`, which is `None` for a cell it cannot cast.  They
      are given, not modelled. */
  datatype Conversions = Conversions(numeric: Value -> Value, datetime: Value -> Value, int64: Value -> Option<Value>)

  /** The number one, in the millionths `Parsers.number` counts in. */
  const Unit: int := 1000000

  /** The exceptions the loaders let through. */
  const DatabaseErrorRaised := "DatabaseError"
  const KeyErrorRaised := "KeyError"
  const TypeErrorRaised := "TypeError"

  /** The database after a loader step, and the exception it raised, if any. */
  datatype Outcome<R> = Outcome(tables: map<string, seq<R>>, raised: Option<string>)

  // ----- frames -----

  /** `df.empty` for `pd.DataFrame(records)`: no rows, or rows without a
      single column. */
  predicate EmptyFrame(records: seq<Row>) {
    forall i :: 0 <= i < |records| ==> records[i] == []
  }

  /** `c in df.columns`: some record has the key. */
  predicate HasColumn(records: seq<Row>, c: string) {
    exists i :: 0 <= i < |records| && HasKey(records[i], c)
  }

  /** `df[c]` at one row. */
  function Cell(row: Row, c: string): Value {
    GetOr(row, c, Null)
  }

  /** `df[c].notnull()` at one row. */
  predicate NotNull(row: Row, c: string) {
    Cell(row, c) != Null
  }

  /** `df[cols]` at one row: the cells of `cols`, in that order. */
  function Project(row: Row, cols: seq<string>): (r: Row)
    ensures |r| == |cols|
    ensures forall i :: 0 <= i < |cols| ==> r[i] == (cols[i], Cell(row, cols[i]))
  {
    if cols == [] then [] else [(cols[0], Cell(row, cols[0]))] + Project(row, cols[1..])
  }

  /** A projected row holds the projected cells and nothing else. */
  lemma {:induction false} ProjectCell(row: Row, cols: seq<string>, c: string)
    ensures Cell(Project(row, cols), c) == if c in cols then Cell(row, c) else Null
  {
    if cols != [] {
      ProjectCell(row, cols[1..], c);
      assert c in cols <==> c == cols[0] || c in cols[1..];
    }
  }

  /** `df[cols]`: every row cut down to `cols`. */
  function Selected(records: seq<Row>, cols: seq<string>): (r: seq<Row>)
    ensures |r| == |records|
    ensures forall i, c :: 0 <= i < |records| ==> (HasKey(r[i], c) <==> c in cols)
  {
    seq(|records|, i requires 0 <= i < |records| => ProjectKeys(records[i], cols); Project(records[i], cols))
  }

  /** A projected row has exactly the projected columns. */
  lemma ProjectKeys(row: Row, cols: seq<string>)
    ensures forall c :: HasKey(Project(row, cols), c) <==> c in cols
  {
    var p := Project(row, cols);
    forall c ensures HasKey(p, c) <==> c in cols {
      if c in cols {
        var i :| 0 <= i < |cols| && cols[i] == c;
        assert p[i].0 == c;
      }
    }
  }

  /** `[c for c in wanted if c in df.columns]`. */
  function AvailableColumns(records: seq<Row>, wanted: seq<string>): (r: seq<string>)
    ensures forall c :: c in r <==> c in wanted && HasColumn(records, c)
  {
    Filter(wanted, c => HasColumn(records, c))
  }

  /** `[c for c in wanted if c not in df.columns]`. */
  function MissingColumns(records: seq<Row>, wanted: seq<string>): (r: seq<string>)
    ensures forall c :: c in r <==> c in wanted && !HasColumn(records, c)
  {
    Filter(wanted, c => !HasColumn(records, c))
  }

  /** Every wanted column is either available or missing, never both; the
      two lists keep the order of `wanted`. */
  lemma ColumnsSplit(records: seq<Row>, wanted: seq<string>)
    ensures |AvailableColumns(records, wanted)| + |MissingColumns(records, wanted)| == |wanted|
  {
    FilterSplit(wanted, c => HasColumn(records, c), c => !HasColumn(records, c));
  }

  // ----- row filters -----

  /** `s[mask]` for a row-wise mask: the rows that pass, in order. */
  function Filter<T(==)>(s: seq<T>, keep: T -> bool): (r: seq<T>)
    ensures |r| <= |s|
    ensures forall i :: 0 <= i < |r| ==> r[i] in s && keep(r[i])
    ensures forall i :: 0 <= i < |s| && keep(s[i]) ==> s[i] in r
  {
    if s == [] then [] else (if keep(s[0]) then [s[0]] else []) + Filter(s[1..], keep)
  }

  /** Filtering keeps order: a filtered concatenation is the concatenation
      of the filtered parts. */
  lemma {:induction false} FilterAppend<T>(a: seq<T>, b: seq<T>, keep: T -> bool)
    ensures Filter(a + b, keep) == Filter(a, keep) + Filter(b, keep)
  {
    if a != [] {
      var head := if keep(a[0]) then [a[0]] else [];
      assert (a + b)[0] == a[0];
      assert (a + b)[1..] == a[1..] + b;
      FilterAppend(a[1..], b, keep);
      assert Filter(a + b, keep) == head + (Filter(a[1..], keep) + Filter(b, keep));
      assert Filter(a, keep) == head + Filter(a[1..], keep);
    } else {
      assert a + b == b;
    }
  }

  /** A mask and its negation split the rows between them. */
  lemma {:induction false} FilterSplit<T>(s: seq<T>, keep: T -> bool, drop: T -> bool)
    requires forall x :: drop(x) == !keep(x)
    ensures |Filter(s, keep)| + |Filter(s, drop)| == |s|
  {
    if s != [] {
      FilterSplit(s[1..], keep, drop);
    }
  }

  /** No row occurs twice. */
  predicate Unique<T(==)>(s: seq<T>) {
    forall i, j :: 0 <= i < j < |s| ==> s[i] != s[j]
  }

  /** Filtering rows that are pairwise different leaves rows that are
      pairwise different. */
  lemma {:induction false} FilterUnique<T>(s: seq<T>, keep: T -> bool)
    requires Unique(s)
    ensures Unique(Filter(s, keep))
  {
    if s != [] {
      var rest := Filter(s[1..], keep);
      FilterUnique(s[1..], keep);
      if keep(s[0]) {
        forall j | 0 <= j < |rest| ensures rest[j] != s[0] {
          var k :| 0 <= k < |s[1..]| && s[1..][k] == rest[j];
          assert s[k + 1] == rest[j];
        }
        var r := [s[0]] + rest;
        forall i, j | 0 <= i < j < |r| ensures r[i] != r[j] {
          assert r[j] == rest[j - 1];
        }
      }
    }
  }

  /** A mask every row passes keeps the frame as it is. */
  lemma {:induction false} FilterAll<T>(s: seq<T>, keep: T -> bool)
    requires forall i :: 0 <= i < |s| ==> keep(s[i])
    ensures Filter(s, keep) == s
  {
    if s != [] {
      FilterAll(s[1..], keep);
    }
  }

  /** A mask no row passes keeps nothing. */
  lemma {:induction false} FilterNone<T>(s: seq<T>, keep: T -> bool)
    requires forall i :: 0 <= i < |s| ==> !keep(s[i])
    ensures Filter(s, keep) == []
  {
    if s != [] {
      FilterNone(s[1..], keep);
    }
  }

  /** The keys of some rows. */
  function KeySet<T(==), K(==)>(rows: seq<T>, key: T -> K): set<K> {
    set x | x in rows :: key(x)
  }

  lemma KeySetSnoc<T, K>(rows: seq<T>, x: T, key: T -> K)
    ensures KeySet(rows + [x], key) == KeySet(rows, key) + {key(x)}
  {
    assert forall y :: y in rows + [x] <==> y in rows || y == x;
  }

  /** Appending rows only adds their keys. */
  lemma KeySetAppend<T, K>(a: seq<T>, b: seq<T>, key: T -> K)
    ensures KeySet(a + b, key) == KeySet(a, key) + KeySet(b, key)
  {
    assert forall y :: y in a + b <==> y in a || y in b;
  }

  /** `df[~df[key].isin(existing)]`: the rows, in order, whose key is not
      among `existing`. */
  function KeepNew<T(==), K(==)>(batch: seq<T>, key: T -> K, existing: set<K>): (r: seq<T>)
    ensures |r| <= |batch|
    ensures forall i :: 0 <= i < |r| ==> r[i] in batch && key(r[i]) !in existing
    ensures forall i :: 0 <= i < |batch| && key(batch[i]) !in existing ==> batch[i] in r
  {
    Filter(batch, x => key(x) !in existing)
  }

  /** The rows a key filter drops: those whose key is already there. */
  function KeepKnown<T(==), K(==)>(batch: seq<T>, key: T -> K, existing: set<K>): (r: seq<T>)
    ensures forall i :: 0 <= i < |r| ==> r[i] in batch && key(r[i]) in existing
  {
    Filter(batch, x => key(x) in existing)
  }

  /** Skipped plus inserted is the batch size. */
  lemma KeepNewCount<T, K>(batch: seq<T>, key: T -> K, existing: set<K>)
    ensures |KeepNew(batch, key, existing)| + |KeepKnown(batch, key, existing)| == |batch|
  {
    FilterSplit(batch, x => key(x) !in existing, x => key(x) in existing);
  }

  /** When no row's key is among those compared against (in particular
      when there are none), a key filter keeps every row. */
  lemma KeepNewDisjoint<T, K>(batch: seq<T>, key: T -> K, existing: set<K>)
    requires forall i :: 0 <= i < |batch| ==> key(batch[i]) !in existing
    ensures KeepNew(batch, key, existing) == batch
  {
    FilterAll(batch, x => key(x) !in existing);
  }

  /** Once the kept rows are stored beside the rows compared against, the
      same batch has nothing new left: filtering it again keeps nothing. */
  lemma KeepNewSettles<T, K>(batch: seq<T>, key: T -> K, existing: set<K>, later: set<K>)
    requires existing + KeySet(KeepNew(batch, key, existing), key) <= later
    ensures KeepNew(batch, key, later) == []
  {
    forall i | 0 <= i < |batch|
      ensures key(batch[i]) in later
    {
      if key(batch[i]) !in existing {
        assert batch[i] in KeepNew(batch, key, existing);
      }
    }
    FilterNone(batch, x => key(x) !in later);
  }

  /** The position of the first row with key `k`. */
  function FirstIndexOf<T, K(==)>(s: seq<T>, key: T -> K, k: K): (j: nat)
    requires k in KeySet(s, key)
    ensures j < |s| && key(s[j]) == k
    ensures forall i :: 0 <= i < j ==> key(s[i]) != k
  {
    if key(s[0]) == k then 0
    else
      assert k in KeySet(s[1..], key) by {
        var x :| x in s && key(x) == k;
        var i :| 0 <= i < |s| && s[i] == x;
        assert s[1..][i - 1] == x;
      }
      var j := FirstIndexOf(s[1..], key, k);
      assert forall i :: 1 <= i < j + 1 ==> s[i] == s[1..][i - 1];
      j + 1
  }

  /** A row with key `k` and none before it is the first row with `k`. */
  lemma FirstIndexIs<T, K>(s: seq<T>, key: T -> K, k: K, j: nat)
    requires j < |s| && key(s[j]) == k
    requires forall i :: 0 <= i < j ==> key(s[i]) != k
    ensures k in KeySet(s, key) && FirstIndexOf(s, key, k) == j
  {
    assert s[j] in s;
  }

  /** Appending a row leaves the first positions of the keys already there. */
  lemma FirstIndexSnoc<T, K>(init: seq<T>, last: T, key: T -> K)
    ensures forall k :: k in KeySet(init, key) ==>
      k in KeySet(init + [last], key) && FirstIndexOf(init + [last], key, k) == FirstIndexOf(init, key, k)
  {
    var s := init + [last];
    forall k | k in KeySet(init, key)
      ensures k in KeySet(s, key) && FirstIndexOf(s, key, k) == FirstIndexOf(init, key, k)
    {
      var j := FirstIndexOf(init, key, k);
      assert forall i :: 0 <= i <= j ==> s[i] == init[i];
      FirstIndexIs(s, key, k, j);
    }
  }

  /** `r` holds the first row of each key of `s`, once, in the order of
      `s`: its rows are rows of `s`, it has every key of `s` and no key
      twice, each row is the first of its key, and the rows appear as
      their keys first appear. */
  predicate FirstRows<T(==), K(==)>(s: seq<T>, key: T -> K, r: seq<T>) {
    && (forall i :: 0 <= i < |r| ==> r[i] in s)
    && KeySet(r, key) == KeySet(s, key)
    && (forall i, j :: 0 <= i < j < |r| ==> key(r[i]) != key(r[j]))
    && (forall i :: 0 <= i < |r| ==> key(r[i]) in KeySet(s, key) && r[i] == s[FirstIndexOf(s, key, key(r[i]))])
    && (forall i, j :: 0 <= i < j < |r| ==>
          key(r[i]) in KeySet(s, key) && key(r[j]) in KeySet(s, key)
          && FirstIndexOf(s, key, key(r[i])) < FirstIndexOf(s, key, key(r[j])))
  }

  /** One more row whose key was seen is dropped. */
  lemma KeepFirstSkip<T, K>(init: seq<T>, last: T, key: T -> K, prev: seq<T>)
    requires FirstRows(init, key, prev) && key(last) in KeySet(init, key)
    ensures FirstRows(init + [last], key, prev)
  {
    var s := init + [last];
    KeySetSnoc(init, last, key);
    FirstIndexSnoc(init, last, key);
    assert forall x :: x in init ==> x in s;
  }

  /** One more row with a new key is appended. */
  lemma KeepFirstAppend<T, K>(init: seq<T>, last: T, key: T -> K, prev: seq<T>)
    requires FirstRows(init, key, prev) && key(last) !in KeySet(init, key)
    ensures FirstRows(init + [last], key, prev + [last])
  {
    var s := init + [last];
    var r := prev + [last];
    KeySetSnoc(init, last, key);
    KeySetSnoc(prev, last, key);
    FirstIndexSnoc(init, last, key);
    assert forall i :: 0 <= i < |init| ==> init[i] in init;
    FirstIndexIs(s, key, key(last), |init|);
    assert forall i :: 0 <= i < |prev| ==> r[i] == prev[i];
  }

  /** `df[~df.duplicated(subset, keep="first")]`: the first row of each key,
      once, in the order of the input. */
  function KeepFirst<T(==), K(==)>(s: seq<T>, key: T -> K): (r: seq<T>)
    ensures FirstRows(s, key, r)
  {
    if s == [] then []
    else
      var init := s[..|s| - 1];
      var last := s[|s| - 1];
      assert s == init + [last];
      var prev := KeepFirst(init, key);
      if key(last) in KeySet(init, key) then
        KeepFirstSkip(init, last, key, prev);
        prev
      else
        KeepFirstAppend(init, last, key, prev);
        prev + [last]
  }

  /** Rows whose keys are already distinct come through unchanged. */
  lemma {:induction false} KeepFirstDistinct<T, K>(s: seq<T>, key: T -> K)
    requires forall i, j :: 0 <= i < j < |s| ==> key(s[i]) != key(s[j])
    ensures KeepFirst(s, key) == s
  {
    if s != [] {
      var init := s[..|s| - 1];
      var last := s[|s| - 1];
      assert s == init + [last];
      assert forall i, j :: 0 <= i < j < |init| ==> key(init[i]) != key(init[j]) by {
        assert forall i :: 0 <= i < |init| ==> init[i] == s[i];
      }
      KeepFirstDistinct(init, key);
      assert key(last) !in KeySet(init, key) by {
        forall y | y in init
          ensures key(y) != key(last)
        {
          var i :| 0 <= i < |init| && init[i] == y;
          assert s[i] == y;
        }
      }
      assert KeepFirst(s, key) == KeepFirst(init, key) + [last];
    }
  }

  /** De-duplicating twice is de-duplicating once. */
  lemma KeepFirstTwice<T, K>(s: seq<T>, key: T -> K)
    ensures KeepFirst(KeepFirst(s, key), key) == KeepFirst(s, key)
  {
    KeepFirstDistinct(KeepFirst(s, key), key);
  }

  /** A row as its own key. */
  function Whole(row: Row): Row {
    row
  }

  /** `df.drop_duplicates()`: every distinct row once, in the order of the
      first occurrences. */
  function DropDuplicates(rows: seq<Row>): (r: seq<Row>)
    ensures Unique(r)
    ensures forall x :: x in r <==> x in rows
    ensures forall i, j :: 0 <= i < j < |r| ==>
      r[i] in KeySet(rows, Whole) && r[j] in KeySet(rows, Whole)
      && FirstIndexOf(rows, Whole, r[i]) < FirstIndexOf(rows, Whole, r[j])
  {
    DroppedDuplicates(rows);
    KeepFirst(rows, Whole)
  }

  lemma DroppedDuplicates(rows: seq<Row>)
    ensures var u := KeepFirst(rows, Whole);
      Unique(u) && forall x :: x in u <==> x in rows
  {
    var u := KeepFirst(rows, Whole);
    forall i, j | 0 <= i < j < |u| ensures u[i] != u[j] {
      assert Whole(u[i]) != Whole(u[j]);
    }
    forall x | x in rows ensures x in u {
      assert Whole(x) in KeySet(rows, Whole);
      var y :| y in u && Whole(y) == Whole(x);
    }
  }

  // ----- column conversions -----

  /** `df.loc[row, c] = v`: the cell under `c` becomes `v`; a row without
      column `c` stays as it is. */
  function Put(row: Row, c: string, v: Value): (r: Row)
    ensures |r| == |row|
    ensures forall i :: 0 <= i < |row| ==> r[i].0 == row[i].0
  {
    if row == [] then [] else [(row[0].0, if row[0].0 == c then v else row[0].1)] + Put(row[1..], c, v)
  }

  /** After `Put` the row has the same columns, `c` reads `v`, and every
      other column reads as before. */
  lemma {:induction false} PutCell(row: Row, c: string, v: Value, d: string)
    ensures HasKey(Put(row, c, v), d) <==> HasKey(row, d)
    ensures Cell(Put(row, c, v), d) == if d == c && HasKey(row, d) then v else Cell(row, d)
  {
    if row != [] {
      var r := Put(row, c, v);
      assert r[1..] == Put(row[1..], c, v);
      PutCell(row[1..], c, v, d);
      if row[0].0 != d {
        HasKeyTail(row, d);
        HasKeyTail(r, d);
      }
    }
  }

  lemma PutCells(row: Row, c: string, v: Value)
    ensures forall d :: HasKey(Put(row, c, v), d) <==> HasKey(row, d)
    ensures forall d :: Cell(Put(row, c, v), d) == if d == c && HasKey(row, d) then v else Cell(row, d)
  {
    forall d {
      PutCell(row, c, v, d);
    }
  }

  /** No column is listed twice. */
  predicate Distinct(cols: seq<string>) {
    forall i, j :: 0 <= i < j < |cols| ==> cols[i] != cols[j]
  }

  /** `df[c] = f(df[c])`: every row with column `c` gets `f` of its cell
      there, and nothing else changes. */
  function MapColumn(rows: seq<Row>, c: string, f: Value -> Value): (r: seq<Row>)
    ensures |r| == |rows|
    ensures forall i, d :: 0 <= i < |rows| ==> (HasKey(r[i], d) <==> HasKey(rows[i], d))
    ensures forall i, d :: 0 <= i < |rows| ==>
      Cell(r[i], d) == if d == c && HasKey(rows[i], c) then f(Cell(rows[i], c)) else Cell(rows[i], d)
  {
    if rows == [] then []
    else
      PutCells(rows[0], c, f(Cell(rows[0], c)));
      [Put(rows[0], c, f(Cell(rows[0], c)))] + MapColumn(rows[1..], c, f)
  }

  /** `for col in cols: df[col] = f(df[col])`: each listed column is
      converted once, and every other column is left alone. */
  function MapColumns(rows: seq<Row>, cols: seq<string>, f: Value -> Value): (r: seq<Row>)
    ensures |r| == |rows|
    ensures forall i, d :: 0 <= i < |rows| ==> (HasKey(r[i], d) <==> HasKey(rows[i], d))
    ensures forall i, d :: 0 <= i < |rows| && d !in cols ==> Cell(r[i], d) == Cell(rows[i], d)
    ensures Distinct(cols) ==> forall i, d :: 0 <= i < |rows| && d in cols && HasKey(rows[i], d) ==>
      Cell(r[i], d) == f(Cell(rows[i], d))
  {
    if cols == [] then rows
    else
      var init := cols[..|cols| - 1];
      var last := cols[|cols| - 1];
      assert forall d :: d in cols <==> d in init || d == last;
      assert Distinct(cols) ==> Distinct(init) && last !in init;
      MapColumn(MapColumns(rows, init, f), last, f)
  }

  /** The conversion loop of `run`, over a frame held as a local variable. */
  method ConvertColumns(rows: seq<Row>, cols: seq<string>, f: Value -> Value) returns (df: seq<Row>)
    ensures df == MapColumns(rows, cols, f)
  {
    df := rows;
    for k := 0 to |cols|
      invariant df == MapColumns(rows, cols[..k], f)
    {
      MapNext(rows, cols, k, f);
      df := MapColumn(df, cols[k], f);
    }
    assert cols[..|cols|] == cols;
  }

  lemma MapNext(rows: seq<Row>, cols: seq<string>, k: nat, f: Value -> Value)
    requires k < |cols|
    ensures MapColumns(rows, cols[..k + 1], f) == MapColumn(MapColumns(rows, cols[..k], f), cols[k], f)
  {
    assert cols[..k + 1][..k] == cols[..k];
  }

  /** `df[c] = df[c].astype("Int64")`: the cell under `c` of every row cast
      by `cast`; a single cell that cannot be cast raises `TypeError` and
      the frame stays as it was. */
  function CastColumn(rows: seq<Row>, c: string, cast: Value -> Option<Value>): (r: Result<seq<Row>>)
    ensures r.Success? <==> forall i :: 0 <= i < |rows| && HasKey(rows[i], c) ==> cast(Cell(rows[i], c)).Some?
    ensures r.Failure? ==> r.error == TypeErrorRaised
    ensures r.Success? ==> |r.value| == |rows|
    ensures r.Success? ==> forall i, d :: 0 <= i < |rows| ==> (HasKey(r.value[i], d) <==> HasKey(rows[i], d))
    ensures r.Success? ==> forall i, d :: 0 <= i < |rows| ==>
      Cell(r.value[i], d) == if d == c && HasKey(rows[i], c) then cast(Cell(rows[i], c)).value else Cell(rows[i], d)
  {
    if rows == [] then Success([])
    else if HasKey(rows[0], c) && cast(Cell(rows[0], c)).None? then Failure(TypeErrorRaised)
    else
      match CastColumn(rows[1..], c, cast)
      case Failure(e) =>
        var i :| 0 <= i < |rows[1..]| && HasKey(rows[1..][i], c) && cast(Cell(rows[1..][i], c)).None?;
        assert rows[i + 1] == rows[1..][i];
        Failure(e)
      case Success(rest) =>
        if HasKey(rows[0], c) then
          PutCells(rows[0], c, cast(Cell(rows[0], c)).value);
          Success([Put(rows[0], c, cast(Cell(rows[0], c)).value)] + rest)
        else Success([rows[0]] + rest)
  }

  /** `for col in cols: df[col] = df[col].astype("Int64")`: the first
      column that cannot be cast raises `TypeError`; otherwise the columns
      not listed are left alone. */
  function CastColumns(rows: seq<Row>, cols: seq<string>, cast: Value -> Option<Value>): (r: Result<seq<Row>>)
    ensures r.Failure? ==> r.error == TypeErrorRaised
    ensures r.Success? ==> |r.value| == |rows|
    ensures r.Success? ==> forall i, d :: 0 <= i < |rows| ==> (HasKey(r.value[i], d) <==> HasKey(rows[i], d))
    ensures r.Success? ==> forall i, d :: 0 <= i < |rows| && d !in cols ==> Cell(r.value[i], d) == Cell(rows[i], d)
  {
    if cols == [] then Success(rows)
    else
      var init := cols[..|cols| - 1];
      var last := cols[|cols| - 1];
      assert forall d :: d in cols <==> d in init || d == last;
      match CastColumns(rows, init, cast)
      case Failure(e) => Failure(e)
      case Success(df) => CastColumn(df, last, cast)
  }

  /** The cast loop of `run`; the first failing cast ends it. */
  method CastEachColumn(rows: seq<Row>, cols: seq<string>, cast: Value -> Option<Value>) returns (r: Result<seq<Row>>)
    ensures r == CastColumns(rows, cols, cast)
  {
    var df := rows;
    for k := 0 to |cols|
      invariant CastColumns(rows, cols[..k], cast) == Success(df)
    {
      CastNext(rows, cols, k, cast);
      var cast_k := CastColumn(df, cols[k], cast);
      if cast_k.Failure? {
        CastsStop(rows, cols, k + 1, cast);
        assert cols[..k + 1] + cols[k + 1..] == cols;
        return cast_k;
      }
      df := cast_k.value;
    }
    assert cols[..|cols|] == cols;
    return Success(df);
  }

  /** One more column of the cast loop. */
  lemma CastNext(rows: seq<Row>, cols: seq<string>, k: nat, cast: Value -> Option<Value>)
    requires k < |cols| && CastColumns(rows, cols[..k], cast).Success?
    ensures CastColumns(rows, cols[..k + 1], cast) == CastColumn(CastColumns(rows, cols[..k], cast).value, cols[k], cast)
  {
    assert cols[..k + 1][..k] == cols[..k];
  }

  /** Once a cast fails, the later columns do not matter. */
  lemma {:induction false} CastsStop(rows: seq<Row>, cols: seq<string>, k: nat, cast: Value -> Option<Value>)
    requires k <= |cols| && CastColumns(rows, cols[..k], cast).Failure?
    ensures CastColumns(rows, cols, cast) == CastColumns(rows, cols[..k], cast)
    decreases |cols| - k
  {
    if k < |cols| {
      var longer := cols[..k + 1];
      assert longer[..|longer| - 1] == cols[..k];
      CastsStop(rows, cols, k + 1, cast);
    } else {
      assert cols[..k] == cols;
    }
  }

  /** The mask `df[c].notnull()`. */
  function NotNullIn(c: string): Row -> bool {
    row => NotNull(row, c)
  }

  /** `df[c]` at one row. */
  function CellOf(c: string): Row -> Value {
    row => Cell(row, c)
  }

  /** `df[c].astype(str)` at one row. */
  function TextOf(c: string): Row -> string {
    row => PyStr(Cell(row, c))
  }

  // ----- the database -----

  /** The tables after `append_to_db(batch, name)`: `to_sql` with
      `if_exists="append"` creates a missing table and appends the rows. */
  function Appended<R>(tables: map<string, seq<R>>, name: string, batch: seq<R>): (r: map<string, seq<R>>)
    ensures name in r && r[name] == (if name in tables then tables[name] else []) + batch
    ensures forall t :: t != name ==> (t in r <==> t in tables) && (t in tables ==> r[t] == tables[t])
  {
    tables[name := (if name in tables then tables[name] else []) + batch]
  }

  /** Appending never loses a stored row. */
  lemma AppendedKeeps<R>(tables: map<string, seq<R>>, name: string, batch: seq<R>, t: string)
    requires t in tables
    ensures t in Appended(tables, name, batch) && tables[t] <= Appended(tables, name, batch)[t]
  {
  }

  /** The database the loaders write to: the rows of each table that exists.
      `Append` is `append_to_db`; `accepted` is the database's answer, and a
      refused append leaves every table as it was. */
  class Store<R> {
    var tables: map<string, seq<R>>

    constructor (tables: map<string, seq<R>>)
      ensures this.tables == tables
    {
      this.tables := tables;
    }

    /** `table_exists(name)`. */
    predicate Exists(name: string)
      reads this
    {
      name in tables
    }

    method Append(name: string, batch: seq<R>, accepted: bool) returns (ok: bool)
      modifies this
      ensures ok == accepted
      ensures tables == if ok then Appended(old(tables), name, batch) else old(tables)
    {
      ok := accepted;
      if ok {
        tables := Appended(tables, name, batch);
      }
    }
  }
}
