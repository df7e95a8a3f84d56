/** `append_entity_data(df, entity_type, id_column)` as `src/movimentos.py`
    and `src/plfund.py` both define it (the two definitions are the same
    code): a missing table is created with the batch, whatever it holds;
    otherwise the whole table is read back, and the batch rows whose id is
    among the stored ids are dropped before the rest is appended.  Unlike the
    trades loader, the ids are compared as they are (no conversion to text),
    against every stored row whatever its date, and a failed read raises. */
module EntityMerge {
  import opened Wrappers
  import opened Json
  import opened Frames
  import opened Batches

  /** `df_db[id_column].tolist()`: the id of every stored row. */
  function StoredIds(stored: seq<Row>, idColumn: string): set<Value> {
    KeySet(stored, CellOf(idColumn))
  }

  /** `df[~df[id_column].isin(stored ids)]`. */
  function NewRows(df: seq<Row>, idColumn: string, stored: seq<Row>): seq<Row> {
    KeepNew(df, CellOf(idColumn), StoredIds(stored, idColumn))
  }

  /** The merge.  `readOk` says whether `get_data_from_db` answers and
      `accepted` whether `append_to_db` succeeds; either failure is an
      exception that leaves the database as it was. */
  function AppendEntity(tables: map<string, seq<Row>>, df: seq<Row>, table: string, idColumn: string,
                        readOk: bool, accepted: bool): Outcome<Row> {
    if table !in tables then
      if accepted then Outcome(Appended(tables, table, df), None) else Outcome(tables, Some(DatabaseErrorRaised))
    else if !readOk then Outcome(tables, Some(DatabaseErrorRaised))
    else
      var rows := NewRows(df, idColumn, tables[table]);
      if rows == [] then Outcome(tables, None)
      else if accepted then Outcome(Appended(tables, table, rows), None)
      else Outcome(tables, Some(DatabaseErrorRaised))
  }

  method AppendEntityData(db: Store<Row>, df: seq<Row>, table: string, idColumn: string, readOk: bool, accepted: bool)
    returns (raised: Option<string>)
    modifies db
    ensures Outcome(db.tables, raised) == AppendEntity(old(db.tables), df, table, idColumn, readOk, accepted)
  {
    if !db.Exists(table) {
      var ok := db.Append(table, df, accepted);
      return if ok then None else Some(DatabaseErrorRaised);
    }
    if !readOk {
      return Some(DatabaseErrorRaised);
    }
    var rows := NewRows(df, idColumn, db.tables[table]);
    if |rows| > 0 {
      var ok := db.Append(table, rows, accepted);
      if !ok {
        return Some(DatabaseErrorRaised);
      }
    }
    return None;
  }

  // ----- what the merge promises -----

  /** Once the table exists and can be read, the rows appended are exactly
      the batch rows whose id no stored row has, in batch order; inserted
      plus skipped is the batch size. */
  lemma InsertsUnseenIds(tables: map<string, seq<Row>>, df: seq<Row>, table: string, idColumn: string)
    requires table in tables
    ensures var existing := StoredIds(tables[table], idColumn);
      var rows := NewRows(df, idColumn, tables[table]);
      && (forall i :: 0 <= i < |rows| ==> rows[i] in df && Cell(rows[i], idColumn) !in existing)
      && (forall i :: 0 <= i < |df| && Cell(df[i], idColumn) !in existing ==> df[i] in rows)
      && |rows| + |KeepKnown(df, CellOf(idColumn), existing)| == |df|
      && AppendEntity(tables, df, table, idColumn, true, true).tables[table] == tables[table] + rows
  {
    KeepNewCount(df, CellOf(idColumn), StoredIds(tables[table], idColumn));
  }

  /** A missing table is created with the batch, even an empty one. */
  lemma MissingTableGetsBatch(tables: map<string, seq<Row>>, df: seq<Row>, table: string, idColumn: string, readOk: bool)
    requires table !in tables
    ensures AppendEntity(tables, df, table, idColumn, readOk, true).tables == tables[table := df]
  {
    assert [] + df == df;
  }

  /** A stored table that cannot be read raises, and nothing is written. */
  lemma UnreadableTableRaises(tables: map<string, seq<Row>>, df: seq<Row>, table: string, idColumn: string, accepted: bool)
    requires table in tables
    ensures AppendEntity(tables, df, table, idColumn, false, accepted) == Outcome(tables, Some(DatabaseErrorRaised))
  {
  }

  /** A write the database refuses raises and changes nothing. */
  lemma RefusedWriteRaises(tables: map<string, seq<Row>>, df: seq<Row>, table: string, idColumn: string, readOk: bool)
    requires table in tables ==> readOk && NewRows(df, idColumn, tables[table]) != []
    ensures AppendEntity(tables, df, table, idColumn, readOk, false) == Outcome(tables, Some(DatabaseErrorRaised))
  {
  }

  /** A stored row with the id of a batch row keeps that row out, whatever
      else the stored row holds. */
  lemma StoredIdBlocks(tables: map<string, seq<Row>>, df: seq<Row>, table: string, idColumn: string, x: Row)
    requires table in tables && x in tables[table]
    ensures forall i :: 0 <= i < |NewRows(df, idColumn, tables[table])| ==>
      Cell(NewRows(df, idColumn, tables[table])[i], idColumn) != Cell(x, idColumn)
  {
    assert CellOf(idColumn)(x) in StoredIds(tables[table], idColumn);
  }

  /** When no id of the batch is stored, every batch row is appended: ids
      repeated inside the batch are not collapsed. */
  lemma UnseenBatchInsertedWhole(tables: map<string, seq<Row>>, df: seq<Row>, table: string, idColumn: string)
    requires table in tables
    requires forall i :: 0 <= i < |df| ==> Cell(df[i], idColumn) !in StoredIds(tables[table], idColumn)
    ensures AppendEntity(tables, df, table, idColumn, true, true).tables[table] == tables[table] + df
  {
    KeepNewDisjoint(df, CellOf(idColumn), StoredIds(tables[table], idColumn));
  }

  /** A merge that raises leaves the database as it was; one that does
      not only appends, only to its own table, and leaves that table in
      place. */
  lemma AppendEntityGrows(tables: map<string, seq<Row>>, df: seq<Row>, table: string, idColumn: string,
                          readOk: bool, accepted: bool)
    ensures var o := AppendEntity(tables, df, table, idColumn, readOk, accepted);
      && (o.raised.Some? ==> o.tables == tables)
      && (o.raised.None? ==> table in o.tables)
      && Grows(tables, o.tables)
      && forall t :: t != table ==> (t in o.tables <==> t in tables) && (t in tables ==> o.tables[t] == tables[t])
  {
    var o := AppendEntity(tables, df, table, idColumn, readOk, accepted);
    if o.tables != tables {
      var rows := if table in tables then NewRows(df, idColumn, tables[table]) else df;
      assert o.tables == Appended(tables, table, rows);
    }
  }

  /** The rows a merge appends to a table it does not create all satisfy
      whatever every batch row satisfies. */
  lemma AppendEntityFrom(tables: map<string, seq<Row>>, df: seq<Row>, table: string, idColumn: string,
                         readOk: bool, accepted: bool, p: Row -> bool)
    requires table in tables
    requires forall i :: 0 <= i < |df| ==> p(df[i])
    ensures var after := AppendEntity(tables, df, table, idColumn, readOk, accepted).tables;
      table in after && tables[table] <= after[table]
      && forall i :: |tables[table]| <= i < |after[table]| ==> p(after[table][i])
  {
    var after := AppendEntity(tables, df, table, idColumn, readOk, accepted).tables;
    if after != tables {
      var rows := NewRows(df, idColumn, tables[table]);
      assert after[table] == tables[table] + rows;
      forall i | |tables[table]| <= i < |after[table]| ensures p(after[table][i]) {
        assert after[table][i] == rows[i - |tables[table]|];
      }
    }
  }

  /** After a merge that did not raise, every batch id is stored. */
  lemma MergedIdsStored(tables: map<string, seq<Row>>, df: seq<Row>, table: string, idColumn: string,
                        readOk: bool, accepted: bool)
    requires AppendEntity(tables, df, table, idColumn, readOk, accepted).raised.None?
    ensures var after := AppendEntity(tables, df, table, idColumn, readOk, accepted).tables;
      table in after && NewRows(df, idColumn, after[table]) == []
  {
    var key := CellOf(idColumn);
    if table !in tables {
      KeepNewDisjoint(df, key, {});
      KeepNewSettles(df, key, {}, StoredIds([] + df, idColumn));
    } else {
      var stored := tables[table];
      var rows := NewRows(df, idColumn, stored);
      if rows != [] {
        KeySetAppend(stored, rows, key);
        KeepNewSettles(df, key, StoredIds(stored, idColumn), StoredIds(stored + rows, idColumn));
      }
    }
  }

  /** Idempotence: once a merge went through, merging the same batch again
      into a database whose copy of that table is the same inserts nothing
      and raises nothing, whatever the database would say to an append. */
  lemma MergeTwiceInsertsNothing(tables: map<string, seq<Row>>, later: map<string, seq<Row>>, df: seq<Row>,
                                 table: string, idColumn: string, readOk: bool, accepted: bool, acceptedAgain: bool)
    requires AppendEntity(tables, df, table, idColumn, readOk, accepted).raised.None?
    requires table in later && later[table] == AppendEntity(tables, df, table, idColumn, readOk, accepted).tables[table]
    ensures AppendEntity(later, df, table, idColumn, true, acceptedAgain) == Outcome(later, None)
  {
    MergedIdsStored(tables, df, table, idColumn, readOk, accepted);
  }
}
