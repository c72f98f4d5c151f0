/**
 The cells that a merge leaves, and which rows match, in terms of the rows alone.
 */
module DeltaCells {
  import opened Wrappers
  import opened DeltaMerge

  // --- matching ---

  /** Equal in every key column, and null in none. */
  predicate Matches(keys: seq<string>, a: Row, b: Row) {
    forall k :: k in keys ==> k in a && k in b && a[k] == b[k] && a[k] != Null
  }

  predicate MatchesOne(keys: seq<string>, row: Row, rows: seq<Row>) {
    exists k :: 0 <= k < |rows| && Matches(keys, row, rows[k])
  }

  lemma MatchesIff(keys: seq<string>, a: Row, b: Row)
    ensures Matches(keys, a, b) <==> KeyOf(keys, a) == KeyOf(keys, b) && Null !in KeyOf(keys, a)
  {
    if Matches(keys, a, b) {
      forall i | 0 <= i < |keys| ensures KeyOf(keys, a)[i] == KeyOf(keys, b)[i] != Null {
        assert keys[i] in keys;
      }
    }
    if KeyOf(keys, a) == KeyOf(keys, b) && Null !in KeyOf(keys, a) {
      forall k | k in keys ensures k in a && k in b && a[k] == b[k] && a[k] != Null {
        var i :| 0 <= i < |keys| && keys[i] == k;
        assert KeyOf(keys, a)[i] == KeyOf(keys, b)[i] && KeyOf(keys, a)[i] in KeyOf(keys, a);
      }
    }
  }

  lemma {:induction false} MatchOfIff(keys: seq<string>, row: Row, rows: seq<Row>)
    ensures MatchOf(keys, row, rows).Some? <==> MatchesOne(keys, row, rows)
    ensures MatchOf(keys, row, rows).Some? ==>
              MatchOf(keys, row, rows).value in rows && Matches(keys, row, MatchOf(keys, row, rows).value)
  {
    if rows != [] {
      MatchesIff(keys, row, rows[0]);
      MatchOfIff(keys, row, rows[1..]);
      assert rows == [rows[0]] + rows[1..];
      assert MatchesOne(keys, row, rows) <==> Matches(keys, row, rows[0]) || MatchesOne(keys, row, rows[1..]);
    }
  }

  /** No two rows match each other. */
  lemma {:induction false} UniqueIff(keys: seq<string>, rows: seq<Row>)
    ensures Unique(keys, rows) <==> forall i, j :: 0 <= i < j < |rows| ==> !Matches(keys, rows[i], rows[j])
  {
    if rows != [] {
      MatchOfIff(keys, rows[0], rows[1..]);
      UniqueIff(keys, rows[1..]);
    }
  }

  lemma NoNullKeyIff(keys: seq<string>, rows: seq<Row>)
    ensures NoNullKey(keys, rows) <==>
            forall row, k :: row in rows && k in keys ==> k in row && row[k] != Null
  {
    forall row ensures Null !in KeyOf(keys, row) <==> forall k :: k in keys ==> k in row && row[k] != Null {
      MatchesIff(keys, row, row);
      assert Matches(keys, row, row) <==> forall k :: k in keys ==> k in row && row[k] != Null;
    }
  }

  // --- rows that stay ---

  /** The rows that match none of the others, in their order. */
  function Left(keys: seq<string>, rows: seq<Row>, others: seq<Row>): seq<Row> {
    if rows == [] then []
    else (if MatchesOne(keys, rows[0], others) then [] else [rows[0]]) + Left(keys, rows[1..], others)
  }

  /** Delete leaves exactly the rows that match no source row, as they were. */
  lemma {:induction false} DeleteLeaves(keys: seq<string>, t: Table, df: Table)
    ensures Merged("delete", keys, t, df) == Table(t.columns, Left(keys, t.rows, df.rows))
    decreases |t.rows|
  {
    if t.rows != [] {
      MatchOfIff(keys, t.rows[0], df.rows);
      DeleteLeaves(keys, Table(t.columns, t.rows[1..]), df);
    }
  }

  // --- cells ---

  /** The target row with the cells of a source row laid over it. */
  predicate Overlaid(after: Row, row: Row, s: Row, columns: seq<string>) {
    && after.Keys == Names(columns)
    && forall c :: c in columns ==> after[c] == if c in s then s[c] else if c in row then row[c] else Null
  }

  /** A target row after an update: overlaid by a matching source row, or only widened if
      there is none. */
  ghost predicate RowUpdated(keys: seq<string>, after: Row, row: Row, source: seq<Row>, columns: seq<string>) {
    if MatchesOne(keys, row, source)
    then exists k :: 0 <= k < |source| && Matches(keys, row, source[k]) && Overlaid(after, row, source[k], columns)
    else Widened(after, row, columns)
  }

  lemma PaddedIsUpdated(keys: seq<string>, row: Row, source: seq<Row>, columns: seq<string>)
    requires row.Keys <= Names(columns) && forall s :: s in source ==> s.Keys <= Names(columns)
    ensures RowUpdated(keys, UpdatedRow(keys, Pad(row, columns), source), row, source, columns)
  {
    KeyOfPadded(keys, row, columns);
    MatchOfIff(keys, row, source);
    if MatchesOne(keys, row, source) {
      var s := MatchOf(keys, row, source).value;
      var k :| 0 <= k < |source| && source[k] == s;
      assert Overlaid(Pad(row, columns) + s, row, source[k], columns);
    }
  }

  lemma {:induction false} UpdatedCells(keys: seq<string>, rows: seq<Row>, source: seq<Row>, columns: seq<string>)
    requires forall row :: row in rows ==> row.Keys <= Names(columns)
    requires forall s :: s in source ==> s.Keys <= Names(columns)
    ensures var updated := Updated(keys, PadAll(rows, columns), source);
            |updated| == |rows| &&
            forall k :: 0 <= k < |rows| ==> RowUpdated(keys, updated[k], rows[k], source, columns)
  {
    if rows != [] {
      assert rows[0] in rows;
      PaddedIsUpdated(keys, rows[0], source, columns);
      UpdatedCells(keys, rows[1..], source, columns);
      assert PadAll(rows, columns)[1..] == PadAll(rows[1..], columns);
    }
  }

  /** A row matches padded rows where it matches the rows. */
  lemma {:induction false} MatchesPadded(keys: seq<string>, row: Row, rows: seq<Row>, columns: seq<string>)
    requires forall r :: r in rows ==> r.Keys <= Names(columns)
    ensures MatchOf(keys, row, PadAll(rows, columns)).Some? <==> MatchesOne(keys, row, rows)
  {
    FindPadded(keys, rows, columns, KeyOf(keys, row));
    MatchOfIff(keys, row, rows);
  }

  lemma {:induction false} InsertedCells(keys: seq<string>, rows: seq<Row>, source: seq<Row>, columns: seq<string>)
    requires forall row :: row in rows ==> row.Keys <= Names(columns)
    ensures AllWidened(Inserted(keys, PadAll(rows, columns), source, columns), Left(keys, source, rows), columns)
  {
    if source != [] {
      MatchesPadded(keys, source[0], rows, columns);
      InsertedCells(keys, rows, source[1..], columns);
    }
  }

  /** After an upsert the target's rows come first, each overlaid by a source row that
      matches it or else null in the columns it lacks; the source rows that match none of
      them follow in order, null in the columns they lack. */
  lemma UpsertCells(keys: seq<string>, t: Table, df: Table)
    requires t.Valid() && df.Valid()
    ensures var m := Merged("upsert", keys, t, df); var n := |t.rows|;
            && n <= |m.rows|
            && (forall k :: 0 <= k < n ==> RowUpdated(keys, m.rows[k], t.rows[k], df.rows, m.columns))
            && AllWidened(m.rows[n..], Left(keys, df.rows, t.rows), m.columns)
            && t.columns <= m.columns && Names(m.columns) == Names(t.columns) + Names(df.columns)
  {
    var e, m := Evolved(t, df), Merged("upsert", keys, t, df);
    EvolvedRows(t, df);
    UpdatedCells(keys, t.rows, df.rows, e.columns);
    InsertedCells(keys, t.rows, df.rows, e.columns);
    var updated := Updated(keys, e.rows, df.rows);
    assert m.rows[|updated|..] == Inserted(keys, e.rows, df.rows, e.columns);
  }

  /** An update does the same to the target's rows, and adds none. */
  lemma UpdateCells(keys: seq<string>, t: Table, df: Table)
    requires t.Valid() && df.Valid()
    ensures var m := Merged("update", keys, t, df);
            && |m.rows| == |t.rows|
            && (forall k :: 0 <= k < |t.rows| ==> RowUpdated(keys, m.rows[k], t.rows[k], df.rows, m.columns))
            && t.columns <= m.columns && Names(m.columns) == Names(t.columns) + Names(df.columns)
  {
    EvolvedRows(t, df);
    UpdatedCells(keys, t.rows, df.rows, Evolved(t, df).columns);
  }

  /** `at` says where in `columns` each of the added ones stands, in increasing order. */
  predicate Places(at: seq<nat>, added: seq<string>, columns: seq<string>) {
    && |at| == |added|
    && (forall i :: 0 <= i < |at| ==> at[i] < |columns| && columns[at[i]] == added[i])
    && (forall i, j :: 0 <= i < j < |at| ==> at[i] < at[j])
  }

  function Shift(at: seq<nat>): seq<nat> {
    seq(|at|, i requires 0 <= i < |at| => at[i] + 1)
  }

  lemma PlacesShift(at: seq<nat>, added: seq<string>, columns: seq<string>)
    requires columns != [] && Places(at, added, columns[1..])
    ensures Places(Shift(at), added, columns)
    ensures Places([0] + Shift(at), [columns[0]] + added, columns)
  {
    forall i | 0 <= i < |at| ensures columns[Shift(at)[i]] == added[i] {
      assert columns[1..][at[i]] == columns[at[i] + 1];
    }
  }

  /** The columns that a merge or an append adds are exactly those the table lacks, in the
      order of the source. */
  lemma {:induction false} AddedColumns(columns: seq<string>, present: seq<string>) returns (at: seq<nat>)
    ensures Places(at, NewColumns(columns, present), columns)
    ensures forall k :: 0 <= k < |columns| ==> (k in at <==> columns[k] !in present)
  {
    if columns == [] { return []; }
    var rest := AddedColumns(columns[1..], present);
    PlacesShift(rest, NewColumns(columns[1..], present), columns);
    at := (if columns[0] in present then [] else [0]) + Shift(rest);
    forall k | 0 <= k < |columns| ensures k in at <==> columns[k] !in present {
      ShiftMember(rest, k);
      if k > 0 { assert columns[1..][k - 1] == columns[k]; }
    }
  }

  lemma ShiftMember(at: seq<nat>, k: nat)
    ensures k in Shift(at) <==> k > 0 && k - 1 in at
  {
    if k > 0 && k - 1 in at {
      var i :| 0 <= i < |at| && at[i] == k - 1;
      assert Shift(at)[i] == k;
    }
  }
}
