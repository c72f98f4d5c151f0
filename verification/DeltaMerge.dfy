/**
 Writing and merging frames into a Delta table: `write_delta` and `merge_into_delta`.

 Delta itself appears only through its contract: a write replaces or appends, a merge
 matches rows whose key columns are equal and not null.
 */
module DeltaMerge {
  import opened Wrappers

  datatype Value = Null | Data(text: string)

  type Row = map<string, Value>

  datatype Table = Table(columns: seq<string>, rows: seq<Row>) {
    predicate Valid() {
      forall row :: row in rows ==> row.Keys == Names(columns)
    }
  }

  function Names(columns: seq<string>): set<string> {
    set c | c in columns
  }

  /** A table of this schema without rows: `df.clear()`. */
  function Cleared(df: Table): Table {
    Table(df.columns, [])
  }

  // --- schema evolution ---

  function NewColumns(columns: seq<string>, present: seq<string>): seq<string> {
    if columns == [] then []
    else (if columns[0] in present then [] else [columns[0]]) + NewColumns(columns[1..], present)
  }

  function Pad(row: Row, columns: seq<string>): Row {
    map c | c in columns :: Get(row, c)
  }

  function Get(row: Row, column: string): Value {
    if column in row then row[column] else Null
  }

  /** The row in a table of these columns: its own cells, and null in every other column. */
  predicate Widened(after: Row, row: Row, columns: seq<string>) {
    after.Keys == Names(columns) && forall c :: c in columns ==> after[c] == if c in row then row[c] else Null
  }

  /** The rows one by one. */
  predicate AllWidened(after: seq<Row>, rows: seq<Row>, columns: seq<string>) {
    |after| == |rows| && forall k :: 0 <= k < |rows| ==> Widened(after[k], rows[k], columns)
  }

  function PadAll(rows: seq<Row>, columns: seq<string>): seq<Row> {
    if rows == [] then [] else [Pad(rows[0], columns)] + PadAll(rows[1..], columns)
  }

  function Appended(t: Table, df: Table): Table {
    var columns := t.columns + NewColumns(df.columns, t.columns);
    Table(columns, PadAll(t.rows, columns) + PadAll(df.rows, columns))
  }

  /** The target after an empty append with the source's schema. */
  function Evolved(t: Table, df: Table): Table {
    Appended(t, Cleared(df))
  }

  // --- the merge contract ---

  function KeyOf(keys: seq<string>, row: Row): seq<Value> {
    seq(|keys|, i requires 0 <= i < |keys| => Get(row, keys[i]))
  }

  /** The first row with this key. */
  function Find(keys: seq<string>, rows: seq<Row>, key: seq<Value>): Option<Row> {
    if rows == [] then None
    else if KeyOf(keys, rows[0]) == key then Some(rows[0])
    else Find(keys, rows[1..], key)
  }

  /** The row that matches: equal keys, none of them null. */
  function MatchOf(keys: seq<string>, row: Row, rows: seq<Row>): Option<Row> {
    if Null in KeyOf(keys, row) then None else Find(keys, rows, KeyOf(keys, row))
  }

  function UpdatedRow(keys: seq<string>, row: Row, source: seq<Row>): Row {
    match MatchOf(keys, row, source)
    case None => row
    case Some(s) => row + s
  }

  function Updated(keys: seq<string>, rows: seq<Row>, source: seq<Row>): seq<Row> {
    if rows == [] then [] else [UpdatedRow(keys, rows[0], source)] + Updated(keys, rows[1..], source)
  }

  /** The source rows that match nothing, null for the columns the source lacks. */
  function Inserted(keys: seq<string>, target: seq<Row>, source: seq<Row>, columns: seq<string>): seq<Row> {
    if source == [] then []
    else (if MatchOf(keys, source[0], target).None? then [Pad(source[0], columns)] else []) +
         Inserted(keys, target, source[1..], columns)
  }

  function Unmatched(keys: seq<string>, rows: seq<Row>, source: seq<Row>): seq<Row> {
    if rows == [] then []
    else (if MatchOf(keys, rows[0], source).None? then [rows[0]] else []) + Unmatched(keys, rows[1..], source)
  }

  /** No two rows with the same non-null key. */
  predicate Unique(keys: seq<string>, rows: seq<Row>) {
    rows != [] ==> MatchOf(keys, rows[0], rows[1..]).None? && Unique(keys, rows[1..])
  }

  predicate NoNullKey(keys: seq<string>, rows: seq<Row>) {
    forall row :: row in rows ==> Null !in KeyOf(keys, row)
  }

  function Execute(mode: string, keys: seq<string>, t: Table, df: Table): Table {
    if mode == "upsert" then
      Table(t.columns, Updated(keys, t.rows, df.rows) + Inserted(keys, t.rows, df.rows, t.columns))
    else if mode == "update" then Table(t.columns, Updated(keys, t.rows, df.rows))
    else Table(t.columns, Unmatched(keys, t.rows, df.rows))
  }

  predicate KeysKnown(keys: seq<string>, t: Table, df: Table) {
    Names(keys) <= Names(t.columns) * Names(df.columns)
  }

  /** `undetermined` is whatever Delta does when one target row has several matches. */
  datatype Engine = Engine(undetermined: (string, seq<string>, Table, Table) -> Option<Table>) {
    function Merge(mode: string, keys: seq<string>, t: Table, df: Table): Option<Table> {
      if !KeysKnown(keys, t, df) then None
      else if Unique(keys, df.rows) then Some(Execute(mode, keys, t, df))
      else undetermined(mode, keys, t, df)
    }
  }

  /** Evolution and merge together. */
  function Merged(mode: string, keys: seq<string>, t: Table, df: Table): Table {
    Execute(mode, keys, if mode == "delete" then t else Evolved(t, df), df)
  }

  // --- the operations ---

  datatype Failure = MissingPartition | NoKeys | UnknownMode | EngineError

  datatype Outcome = Written | Skipped | Failed(why: Failure)

  datatype WriteMode = Overwrite | Append

  class DeltaStore {
    var table: Option<Table>

    constructor ()
      ensures table == None
    {
      table := None;
    }

    /** Skips an append exactly when it has no rows and the columns are those of the
        table, and then the append would change nothing. */
    method Write(df: Table, mode: WriteMode, partitionBy: seq<string>) returns (r: Outcome)
      requires table.Some? ==> table.value.Valid()
      modifies this
      ensures r.Skipped? <==> mode.Append? && old(table).Some? && df.rows == [] &&
                              Names(df.columns) == Names(old(table).value.columns)
      ensures r.Failed? <==> !r.Skipped? && !(Names(partitionBy) <= Names(df.columns))
      ensures r.Written? && (mode.Overwrite? || old(table).None?) ==> table == Some(df)
      ensures mode.Append? && old(table).Some? && !r.Failed? ==> table == Some(Appended(old(table).value, df))
      // every old row and then every new one, null where it has no cell
      ensures mode.Append? && old(table).Some? && !r.Failed? ==>
                var before, after := old(table).value, table.value;
                && Names(after.columns) == Names(before.columns) + Names(df.columns) && before.columns <= after.columns
                && AllWidened(after.rows, before.rows + df.rows, after.columns)
      ensures r.Failed? ==> table == old(table)
    {
      if mode.Append? && table.Some? { AppendedCells(table.value, df); }
      if mode.Append? && table.Some? && Names(df.columns) == Names(table.value.columns) && df.rows == [] {
        AppendNothing(table.value, df);
        return Skipped;
      }
      if !(Names(partitionBy) <= Names(df.columns)) {
        return Failed(MissingPartition);
      }
      if mode.Append? && table.Some? {
        table := Some(Appended(table.value, df));
      } else {
        table := Some(df);
      }
      r := Written;
    }

    /** A skipped merge would have changed nothing; a completed one is the merge; a failed
        one keeps every row, at most widened by the new columns. */
    method MergeInto(engine: Engine, df: Table, mode: string, keys: seq<string>,
        partitionBy: seq<string>) returns (r: Outcome)
      requires table.Some? ==> table.value.Valid()
      modifies this
      ensures old(table).None? ==>
                if Names(partitionBy) <= Names(df.columns)
                then r == Written && table == Some(if mode in ["delete", "update"] then Cleared(df) else df)
                else r == Failed(MissingPartition) && table == None
      ensures r.Skipped? <==> old(table).Some? && mode == "update" && df.rows == [] &&
                              Names(df.columns) == Names(old(table).value.columns)
      ensures r.Skipped? ==> table == old(table) == Some(Merged(mode, keys, old(table).value, df))
      ensures old(table).Some? && r.Written? && Unique(keys, df.rows) ==>
                table == Some(Merged(mode, keys, old(table).value, df))
      ensures old(table).Some? ==> (r == Failed(NoKeys) <==> !r.Skipped? && keys == [])
      ensures old(table).Some? ==>
                (r == Failed(UnknownMode) <==> keys != [] && mode !in ["upsert", "update", "delete"])
      ensures old(table).Some? && Unique(keys, df.rows) && keys != [] && mode in ["upsert", "update", "delete"] ==>
                var merged := Merged(mode, keys, old(table).value, df);
                (r == Failed(EngineError) <==> !r.Skipped? && !KeysKnown(keys, merged, df))
      ensures old(table).Some? && r.Failed? ==>
                table == old(table) || (r.why == EngineError && table == Some(Evolved(old(table).value, df)))
    {
      if mode == "update" && df.rows == [] && table.Some? && Names(df.columns) == Names(table.value.columns) {
        UpdateWithNothing(keys, table.value, df);
        return Skipped;
      }
      if table.None? {
        if !(Names(partitionBy) <= Names(df.columns)) {
          return Failed(MissingPartition);
        }
        table := Some(if mode in ["delete", "update"] then Cleared(df) else df);
        return Written;
      }
      if keys == [] {
        return Failed(NoKeys);
      }
      if mode in ["upsert", "update"] {
        if NewColumns(df.columns, table.value.columns) != [] {
          table := Some(Evolved(table.value, df));
        } else {
          EvolvedIfNoNew(table.value, df);
        }
      }
      if mode !in ["upsert", "update", "delete"] {
        return Failed(UnknownMode);
      }
      var merged := engine.Merge(mode, keys, table.value, df);
      if merged.None? {
        return Failed(EngineError);
      }
      table := merged;
      r := Written;
    }
  }

  // --- padding ---

  lemma NamesCons(columns: seq<string>)
    requires columns != []
    ensures Names(columns) == {columns[0]} + Names(columns[1..])
  {
    assert columns == [columns[0]] + columns[1..];
  }

  lemma {:induction false} PadAllWidens(rows: seq<Row>, columns: seq<string>)
    ensures AllWidened(PadAll(rows, columns), rows, columns)
  {
    if rows != [] { PadAllWidens(rows[1..], columns); }
  }

  /** An append keeps every cell and makes the missing ones null. */
  lemma AppendedCells(t: Table, df: Table)
    ensures var after := Appended(t, df);
            && Names(after.columns) == Names(t.columns) + Names(df.columns) && t.columns <= after.columns
            && AllWidened(after.rows, t.rows + df.rows, after.columns)
  {
    var columns := Appended(t, df).columns;
    NewColumnsAre(df.columns, t.columns);
    PadAllWidens(t.rows, columns);
    PadAllWidens(df.rows, columns);
  }

  lemma {:induction false} PadAllIsIdentity(rows: seq<Row>, columns: seq<string>)
    requires forall row :: row in rows ==> row.Keys == Names(columns)
    ensures PadAll(rows, columns) == rows
  {
    if rows != [] {
      assert rows[0] in rows;
      assert Pad(rows[0], columns) == rows[0];
      PadAllIsIdentity(rows[1..], columns);
    }
  }

  lemma {:induction false} NoNewColumns(columns: seq<string>, present: seq<string>)
    ensures NewColumns(columns, present) == [] <==> Names(columns) <= Names(present)
  {
    if columns != [] {
      NoNewColumns(columns[1..], present);
      NamesCons(columns);
    }
  }

  lemma {:induction false} NewColumn(columns: seq<string>, present: seq<string>, c: string)
    ensures c in NewColumns(columns, present) <==> c in columns && c !in present
  {
    if columns != [] { NewColumn(columns[1..], present, c); }
  }

  lemma NewColumnsAre(columns: seq<string>, present: seq<string>)
    ensures Names(present + NewColumns(columns, present)) == Names(present) + Names(columns)
  {
    forall c ensures c in NewColumns(columns, present) <==> c in columns && c !in present {
      NewColumn(columns, present, c);
    }
  }

  lemma AppendNothing(t: Table, df: Table)
    requires t.Valid() && df.rows == [] && Names(df.columns) == Names(t.columns)
    ensures Appended(t, df) == t
  {
    NoNewColumns(df.columns, t.columns);
    PadAllIsIdentity(t.rows, t.columns);
    assert t.columns + [] == t.columns && t.rows + [] == t.rows;
  }

  lemma EvolvedIfNoNew(t: Table, df: Table)
    requires t.Valid() && NewColumns(df.columns, t.columns) == []
    ensures Evolved(t, df) == t
  {
    PadAllIsIdentity(t.rows, t.columns);
    assert t.columns + [] == t.columns && t.rows + [] == t.rows;
  }

  lemma {:induction false} UpdatedByNothing(keys: seq<string>, rows: seq<Row>)
    ensures Updated(keys, rows, []) == rows
  {
    if rows != [] { UpdatedByNothing(keys, rows[1..]); }
  }

  lemma UpdateWithNothing(keys: seq<string>, t: Table, df: Table)
    requires t.Valid() && df.rows == [] && Names(df.columns) == Names(t.columns)
    ensures Merged("update", keys, t, df) == t
  {
    NoNewColumns(df.columns, t.columns);
    EvolvedIfNoNew(t, df);
    UpdatedByNothing(keys, t.rows);
  }

  // --- a missing table ---

  /** Creating the table gives what merging into an empty one of the source's schema
      would, in every mode there is. */
  lemma CreatedIsEmptyThenMerged(mode: string, keys: seq<string>, df: Table)
    requires df.Valid() && mode in ["upsert", "update", "delete"]
    ensures (if mode in ["delete", "update"] then Cleared(df) else df) == Merged(mode, keys, Cleared(df), df)
  {
    var empty := Cleared(df);
    NoNewColumns(df.columns, df.columns);
    EvolvedIfNoNew(empty, df);
    if mode == "upsert" {
      InsertedIntoEmpty(keys, df.rows, df.columns);
      PadAllIsIdentity(df.rows, df.columns);
    }
  }

  lemma {:induction false} InsertedIntoEmpty(keys: seq<string>, source: seq<Row>, columns: seq<string>)
    ensures Inserted(keys, [], source, columns) == PadAll(source, columns)
  {
    if source != [] { InsertedIntoEmpty(keys, source[1..], columns); }
  }

  // --- what a merge does, key by key ---

  lemma KeyOfPadded(keys: seq<string>, row: Row, columns: seq<string>)
    requires row.Keys <= Names(columns)
    ensures KeyOf(keys, Pad(row, columns)) == KeyOf(keys, row)
  {
    forall i | 0 <= i < |keys| ensures Get(Pad(row, columns), keys[i]) == Get(row, keys[i]) {
    }
  }

  lemma KeyOfUpdated(keys: seq<string>, row: Row, s: Row)
    requires KeyOf(keys, row) == KeyOf(keys, s) && Null !in KeyOf(keys, s)
    ensures KeyOf(keys, row + s) == KeyOf(keys, s)
  {
    forall i | 0 <= i < |keys| ensures Get(row + s, keys[i]) == Get(s, keys[i]) {
      assert KeyOf(keys, s)[i] == Get(s, keys[i]) && KeyOf(keys, s)[i] in KeyOf(keys, s);
    }
  }

  lemma {:induction false} FoundHasKey(keys: seq<string>, rows: seq<Row>, key: seq<Value>)
    ensures Find(keys, rows, key).Some? ==>
              KeyOf(keys, Find(keys, rows, key).value) == key && Find(keys, rows, key).value in rows
  {
    if rows != [] { FoundHasKey(keys, rows[1..], key); }
  }

  lemma {:induction false} FindConcat(keys: seq<string>, a: seq<Row>, b: seq<Row>, key: seq<Value>)
    ensures Find(keys, a + b, key) == if Find(keys, a, key).Some? then Find(keys, a, key) else Find(keys, b, key)
  {
    if a == [] {
      assert a + b == b;
    } else {
      assert (a + b)[1..] == a[1..] + b;
      FindConcat(keys, a[1..], b, key);
    }
  }

  function PadFound(found: Option<Row>, columns: seq<string>): Option<Row> {
    match found
    case None => None
    case Some(row) => Some(Pad(row, columns))
  }

  lemma {:induction false} FindPadded(keys: seq<string>, rows: seq<Row>, columns: seq<string>, key: seq<Value>)
    requires forall row :: row in rows ==> row.Keys <= Names(columns)
    ensures Find(keys, PadAll(rows, columns), key) == PadFound(Find(keys, rows, key), columns)
  {
    if rows != [] {
      assert rows[0] in rows;
      KeyOfPadded(keys, rows[0], columns);
      FindPadded(keys, rows[1..], columns, key);
      assert PadAll(rows, columns)[1..] == PadAll(rows[1..], columns);
    }
  }

  lemma KeyOfUpdatedRow(keys: seq<string>, row: Row, source: seq<Row>)
    ensures KeyOf(keys, UpdatedRow(keys, row, source)) == KeyOf(keys, row)
  {
    if MatchOf(keys, row, source).Some? {
      FoundHasKey(keys, source, KeyOf(keys, row));
      KeyOfUpdated(keys, row, MatchOf(keys, row, source).value);
    }
  }

  function Override(target: Option<Row>, source: Option<Row>): Option<Row> {
    if target.Some? && source.Some? then Some(target.value + source.value) else target
  }

  lemma {:induction false} FindUpdated(keys: seq<string>, rows: seq<Row>, source: seq<Row>, key: seq<Value>)
    requires Null !in key
    ensures Find(keys, Updated(keys, rows, source), key) == Override(Find(keys, rows, key), Find(keys, source, key))
  {
    if rows != [] {
      KeyOfUpdatedRow(keys, rows[0], source);
      FindUpdated(keys, rows[1..], source, key);
      assert Updated(keys, rows, source)[1..] == Updated(keys, rows[1..], source);
    }
  }

  lemma {:induction false} FindInserted(keys: seq<string>, target: seq<Row>, source: seq<Row>,
      columns: seq<string>, key: seq<Value>)
    requires Null !in key
    requires forall row :: row in source ==> row.Keys <= Names(columns)
    ensures Find(keys, Inserted(keys, target, source, columns), key) ==
            if Find(keys, target, key).Some? then None else PadFound(Find(keys, source, key), columns)
  {
    if source != [] {
      var first, rest := source[0], Inserted(keys, target, source[1..], columns);
      assert first in source;
      KeyOfPadded(keys, first, columns);
      FindInserted(keys, target, source[1..], columns, key);
      if MatchOf(keys, first, target).None? {
        assert Inserted(keys, target, source, columns) == [Pad(first, columns)] + rest;
        assert ([Pad(first, columns)] + rest)[1..] == rest;
      } else {
        assert Inserted(keys, target, source, columns) == rest;
      }
    }
  }

  lemma {:induction false} FindUnmatched(keys: seq<string>, rows: seq<Row>, source: seq<Row>, key: seq<Value>)
    requires Null !in key
    ensures Find(keys, Unmatched(keys, rows, source), key) ==
            if Find(keys, source, key).Some? then None else Find(keys, rows, key)
  {
    if rows != [] {
      var rest := Unmatched(keys, rows[1..], source);
      FindUnmatched(keys, rows[1..], source, key);
      if MatchOf(keys, rows[0], source).None? {
        assert ([rows[0]] + rest)[1..] == rest;
      } else {
        assert Unmatched(keys, rows, source) == rest;
      }
    }
  }

  lemma EvolvedRows(t: Table, df: Table)
    requires t.Valid()
    ensures var columns := Evolved(t, df).columns;
            Evolved(t, df).rows == PadAll(t.rows, columns) && Names(columns) == Names(t.columns) + Names(df.columns)
  {
    NewColumnsAre(df.columns, t.columns);
    var columns := Evolved(t, df).columns;
    assert PadAll(t.rows, columns) + [] == PadAll(t.rows, columns);
  }

  /** Upsert is a keyed override: a key of both gives the target row, null in the new
      columns, overridden by the source row; a key of one gives that row, padded. */
  lemma UpsertIsOverride(keys: seq<string>, t: Table, df: Table, key: seq<Value>)
    requires t.Valid() && df.Valid() && Null !in key
    ensures var m := Merged("upsert", keys, t, df);
            var before, incoming := PadFound(Find(keys, t.rows, key), m.columns), Find(keys, df.rows, key);
            Find(keys, m.rows, key) ==
            if before.Some? then Override(before, incoming) else PadFound(incoming, m.columns)
  {
    var e := Evolved(t, df);
    EvolvedRows(t, df);
    FindPadded(keys, t.rows, e.columns, key);
    FindUpdated(keys, e.rows, df.rows, key);
    FindInserted(keys, e.rows, df.rows, e.columns, key);
    FindConcat(keys, Updated(keys, e.rows, df.rows), Inserted(keys, e.rows, df.rows, e.columns), key);
  }

  /** Update keeps the keys, row by row, and overrides the rows the source has. */
  lemma UpdateKeepsKeys(keys: seq<string>, t: Table, df: Table)
    requires t.Valid() && df.Valid()
    ensures var m := Merged("update", keys, t, df);
            && |m.rows| == |t.rows|
            && (forall k :: 0 <= k < |t.rows| ==> KeyOf(keys, m.rows[k]) == KeyOf(keys, t.rows[k]))
            && forall key :: Null !in key ==>
                 var before := PadFound(Find(keys, t.rows, key), m.columns);
                 Find(keys, m.rows, key) == Override(before, Find(keys, df.rows, key))
  {
    var e, m := Evolved(t, df), Merged("update", keys, t, df);
    EvolvedRows(t, df);
    RowsKeepKeys(keys, t.rows, df.rows, e.columns);
    forall key | Null !in key
      ensures var before := PadFound(Find(keys, t.rows, key), m.columns);
              Find(keys, m.rows, key) == Override(before, Find(keys, df.rows, key))
    {
      FindPadded(keys, t.rows, e.columns, key);
      FindUpdated(keys, e.rows, df.rows, key);
    }
  }

  lemma {:induction false} RowsKeepKeys(keys: seq<string>, rows: seq<Row>, source: seq<Row>, columns: seq<string>)
    requires forall row :: row in rows ==> row.Keys <= Names(columns)
    ensures var updated := Updated(keys, PadAll(rows, columns), source);
            |updated| == |rows| && forall k :: 0 <= k < |rows| ==> KeyOf(keys, updated[k]) == KeyOf(keys, rows[k])
  {
    if rows != [] {
      assert rows[0] in rows;
      KeyOfPadded(keys, rows[0], columns);
      KeyOfUpdatedRow(keys, Pad(rows[0], columns), source);
      RowsKeepKeys(keys, rows[1..], source, columns);
      assert PadAll(rows, columns)[1..] == PadAll(rows[1..], columns);
    }
  }

  /** Delete removes exactly the source's keys; rows without a key stay. */
  lemma DeleteRemovesExactly(keys: seq<string>, t: Table, df: Table, row: Row)
    ensures var m := Merged("delete", keys, t, df);
            m.columns == t.columns && (row in m.rows <==> row in t.rows && MatchOf(keys, row, df.rows).None?)
  {
    UnmatchedRows(keys, t.rows, df.rows, row);
  }

  lemma {:induction false} UnmatchedRows(keys: seq<string>, rows: seq<Row>, source: seq<Row>, row: Row)
    ensures row in Unmatched(keys, rows, source) <==> row in rows && MatchOf(keys, row, source).None?
  {
    if rows != [] { UnmatchedRows(keys, rows[1..], source, row); }
  }

  // --- merging the same source twice ---

  lemma {:induction false} UniqueRowIsFound(keys: seq<string>, rows: seq<Row>, row: Row)
    requires Unique(keys, rows) && row in rows && Null !in KeyOf(keys, row)
    ensures Find(keys, rows, KeyOf(keys, row)) == Some(row)
  {
    if row != rows[0] {
      UniqueRowIsFound(keys, rows[1..], row);
    }
  }

  lemma UpdatedRowTwice(keys: seq<string>, row: Row, source: seq<Row>)
    ensures UpdatedRow(keys, UpdatedRow(keys, row, source), source) == UpdatedRow(keys, row, source)
  {
    KeyOfUpdatedRow(keys, row, source);
    if MatchOf(keys, row, source).Some? {
      var s := MatchOf(keys, row, source).value;
      assert row + s + s == row + s;
    }
  }

  lemma {:induction false} UpdatedTwice(keys: seq<string>, rows: seq<Row>, source: seq<Row>)
    ensures Updated(keys, Updated(keys, rows, source), source) == Updated(keys, rows, source)
  {
    if rows != [] {
      UpdatedRowTwice(keys, rows[0], source);
      UpdatedTwice(keys, rows[1..], source);
      assert Updated(keys, rows, source)[1..] == Updated(keys, rows[1..], source);
    }
  }

  lemma {:induction false} UpdatedConcat(keys: seq<string>, a: seq<Row>, b: seq<Row>, source: seq<Row>)
    ensures Updated(keys, a + b, source) == Updated(keys, a, source) + Updated(keys, b, source)
  {
    if a == [] {
      assert a + b == b;
    } else {
      assert (a + b)[1..] == a[1..] + b;
      UpdatedConcat(keys, a[1..], b, source);
    }
  }

  /** An inserted row already agrees with the source row it came from. */
  lemma {:induction false} InsertedStay(keys: seq<string>, target: seq<Row>, part: seq<Row>, source: seq<Row>,
      columns: seq<string>)
    requires Unique(keys, source) && forall row :: row in part ==> row in source && row.Keys <= Names(columns)
    ensures Updated(keys, Inserted(keys, target, part, columns), source) == Inserted(keys, target, part, columns)
  {
    if part != [] {
      var s, rest := part[0], Inserted(keys, target, part[1..], columns);
      assert s in part;
      InsertedStay(keys, target, part[1..], source, columns);
      if MatchOf(keys, s, target).None? {
        KeyOfPadded(keys, s, columns);
        if Null !in KeyOf(keys, s) { UniqueRowIsFound(keys, source, s); }
        assert Pad(s, columns) + s == Pad(s, columns);
        assert UpdatedRow(keys, Pad(s, columns), source) == Pad(s, columns);
        assert ([Pad(s, columns)] + rest)[1..] == rest;
      } else {
        assert Inserted(keys, target, part, columns) == rest;
      }
    }
  }

  /** Once every keyed source row is in the target, only rows without a key are inserted. */
  lemma {:induction false} OnlyNullKeysInserted(keys: seq<string>, target: seq<Row>, part: seq<Row>,
      columns: seq<string>)
    requires forall row :: row in part && Null !in KeyOf(keys, row) ==> Find(keys, target, KeyOf(keys, row)).Some?
    ensures Inserted(keys, target, part, columns) == [] <==> NoNullKey(keys, part)
  {
    if part != [] {
      assert part[0] in part;
      OnlyNullKeysInserted(keys, target, part[1..], columns);
      assert part == [part[0]] + part[1..];
      assert NoNullKey(keys, part) <==> Null !in KeyOf(keys, part[0]) && NoNullKey(keys, part[1..]);
    }
  }

  lemma {:induction false} UpdatedValid(keys: seq<string>, rows: seq<Row>, source: seq<Row>, columns: seq<string>)
    requires forall row :: row in rows ==> row.Keys == Names(columns)
    requires forall row :: row in source ==> row.Keys <= Names(columns)
    ensures forall row :: row in Updated(keys, rows, source) ==> row.Keys == Names(columns)
  {
    if rows != [] {
      assert rows[0] in rows;
      UpdatedValid(keys, rows[1..], source, columns);
      if MatchOf(keys, rows[0], source).Some? { FoundHasKey(keys, source, KeyOf(keys, rows[0])); }
    }
  }

  lemma {:induction false} InsertedValid(keys: seq<string>, target: seq<Row>, source: seq<Row>, columns: seq<string>)
    ensures forall row :: row in Inserted(keys, target, source, columns) ==> row.Keys == Names(columns)
  {
    if source != [] { InsertedValid(keys, target, source[1..], columns); }
  }

  lemma {:induction false} PadAllValid(rows: seq<Row>, columns: seq<string>)
    ensures forall row :: row in PadAll(rows, columns) ==> row.Keys == Names(columns)
  {
    if rows != [] { PadAllValid(rows[1..], columns); }
  }

  lemma UpsertValid(keys: seq<string>, t: Table, df: Table)
    requires t.Valid() && df.Valid()
    ensures Merged("upsert", keys, t, df).Valid()
    ensures Names(Merged("upsert", keys, t, df).columns) == Names(t.columns) + Names(df.columns)
  {
    var e := Evolved(t, df);
    EvolvedRows(t, df);
    PadAllValid(t.rows, e.columns);
    UpdatedValid(keys, e.rows, df.rows, e.columns);
    InsertedValid(keys, e.rows, df.rows, e.columns);
  }

  /** With distinct source keys, upserting twice is upserting once if and only if no
      source row has a null in its key: such a row is inserted every time. */
  lemma UpsertIdempotentIff(keys: seq<string>, t: Table, df: Table)
    requires t.Valid() && df.Valid() && Unique(keys, df.rows)
    ensures var m := Merged("upsert", keys, t, df);
            Merged("upsert", keys, m, df) == m <==> NoNullKey(keys, df.rows)
  {
    var m, e := Merged("upsert", keys, t, df), Evolved(t, df);
    UpsertValid(keys, t, df);
    NoNewColumns(df.columns, m.columns);
    EvolvedIfNoNew(m, df);
    EvolvedRows(t, df);
    var updated, inserted := Updated(keys, e.rows, df.rows), Inserted(keys, e.rows, df.rows, e.columns);
    UpdatedConcat(keys, updated, inserted, df.rows);
    UpdatedTwice(keys, e.rows, df.rows);
    InsertedStay(keys, e.rows, df.rows, df.rows, e.columns);
    forall row | row in df.rows && Null !in KeyOf(keys, row) ensures Find(keys, m.rows, KeyOf(keys, row)).Some? {
      UniqueRowIsFound(keys, df.rows, row);
      UpsertIsOverride(keys, t, df, KeyOf(keys, row));
    }
    OnlyNullKeysInserted(keys, m.rows, df.rows, m.columns);
    var again := Inserted(keys, m.rows, df.rows, m.columns);
    assert Merged("upsert", keys, m, df).rows == m.rows + again;
    if again == [] { assert m.rows + again == m.rows; }
  }

  // --- keys stay unique ---

  lemma {:induction false} UniqueConcat(keys: seq<string>, a: seq<Row>, b: seq<Row>)
    requires Unique(keys, a) && Unique(keys, b)
    requires forall row :: row in a && Null !in KeyOf(keys, row) ==> Find(keys, b, KeyOf(keys, row)).None?
    ensures Unique(keys, a + b)
  {
    if a == [] {
      assert a + b == b;
    } else {
      assert a[0] in a;
      assert (a + b)[1..] == a[1..] + b;
      UniqueConcat(keys, a[1..], b);
      FindConcat(keys, a[1..], b, KeyOf(keys, a[0]));
    }
  }

  lemma {:induction false} UniquePadded(keys: seq<string>, rows: seq<Row>, columns: seq<string>)
    requires Unique(keys, rows) && forall row :: row in rows ==> row.Keys <= Names(columns)
    ensures Unique(keys, PadAll(rows, columns))
  {
    if rows != [] {
      assert rows[0] in rows;
      UniquePadded(keys, rows[1..], columns);
      KeyOfPadded(keys, rows[0], columns);
      FindPadded(keys, rows[1..], columns, KeyOf(keys, rows[0]));
      assert PadAll(rows, columns)[1..] == PadAll(rows[1..], columns);
    }
  }

  lemma {:induction false} UniqueUpdated(keys: seq<string>, rows: seq<Row>, source: seq<Row>)
    requires Unique(keys, rows)
    ensures Unique(keys, Updated(keys, rows, source))
  {
    if rows != [] {
      var key := KeyOf(keys, rows[0]);
      UniqueUpdated(keys, rows[1..], source);
      KeyOfUpdatedRow(keys, rows[0], source);
      if Null !in key { FindUpdated(keys, rows[1..], source, key); }
      assert Updated(keys, rows, source)[1..] == Updated(keys, rows[1..], source);
    }
  }

  lemma {:induction false} UniqueInserted(keys: seq<string>, target: seq<Row>, source: seq<Row>, columns: seq<string>)
    requires Unique(keys, source) && forall row :: row in source ==> row.Keys <= Names(columns)
    ensures Unique(keys, Inserted(keys, target, source, columns))
  {
    if source != [] {
      var first, rest := source[0], Inserted(keys, target, source[1..], columns);
      assert first in source;
      UniqueInserted(keys, target, source[1..], columns);
      KeyOfPadded(keys, first, columns);
      if Null !in KeyOf(keys, first) { FindInserted(keys, target, source[1..], columns, KeyOf(keys, first)); }
      if MatchOf(keys, first, target).None? {
        assert ([Pad(first, columns)] + rest)[1..] == rest;
      } else {
        assert Inserted(keys, target, source, columns) == rest;
      }
    }
  }

  /** Distinct keys on both sides give distinct keys in the result. */
  lemma UpsertKeepsUnique(keys: seq<string>, t: Table, df: Table)
    requires t.Valid() && df.Valid() && Unique(keys, t.rows) && Unique(keys, df.rows)
    ensures Unique(keys, Merged("upsert", keys, t, df).rows)
  {
    var e := Evolved(t, df);
    EvolvedRows(t, df);
    UniquePadded(keys, t.rows, e.columns);
    UniqueUpdated(keys, e.rows, df.rows);
    UniqueInserted(keys, e.rows, df.rows, e.columns);
    var updated, inserted := Updated(keys, e.rows, df.rows), Inserted(keys, e.rows, df.rows, e.columns);
    forall row | row in updated && Null !in KeyOf(keys, row) ensures Find(keys, inserted, KeyOf(keys, row)).None? {
      var key := KeyOf(keys, row);
      FindInserted(keys, e.rows, df.rows, e.columns, key);
      FindUpdated(keys, e.rows, df.rows, key);
      RowIsFound(keys, updated, row);
    }
    UniqueConcat(keys, updated, inserted);
  }

  lemma {:induction false} RowIsFound(keys: seq<string>, rows: seq<Row>, row: Row)
    requires row in rows
    ensures Find(keys, rows, KeyOf(keys, row)).Some?
  {
    if row != rows[0] { RowIsFound(keys, rows[1..], row); }
  }
}
