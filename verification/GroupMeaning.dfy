/** What GROUP BY and the aggregate calls of a query mean: each output row stands
    for the rows that agree on the group-by columns, and its cells report the
    functions asked for over exactly those rows. */
module GroupMeaning {
  import opened Seqs
  import opened Types
  import opened Expressions
  import opened Aggregates
  import opened AggregateMeaning
  import opened Grouping
  import opened LogicalPlan
  import opened Physical
  import opened Translation

  // ----- the meaning of a group's row -----

  function ArgumentType(call: AggCall): TypeId { if call.arg.Some? then call.arg.value.ty else Integer }

  function ArgumentOf(call: AggCall): Row -> Datum {
    (r: Row) => if call.arg.Some? then RowEnv(r)(call.arg.value) else Null
  }

  /** The row agrees with the output row on every group-by column. */
  predicate InGroup(groupBy: seq<ColumnRef>, out: Row, r: Row) {
    forall j :: 0 <= j < |groupBy| ==> RowEnv(r)(groupBy[j]) == Get(out, AGGREGATE_ID, j)
  }
  function GroupOf(groupBy: seq<ColumnRef>, out: Row): Row -> bool { (r: Row) => InGroup(groupBy, out, r) }

  /** The cell is what the call reports over the rows, in order. */
  ghost predicate ReportsCall(fpu: FloatUnit, call: AggCall, members: seq<Row>, d: Datum) {
    Reports(fpu, call.fn, ArgumentType(call), Map(members, ArgumentOf(call)), d)
  }

  /** After the group-by cells, one cell for each call, over the rows of the group. */
  ghost predicate ReportsCalls(fpu: FloatUnit, groupBy: seq<ColumnRef>, aggs: seq<AggCall>, rows: seq<Row>, out: Row) {
    forall k :: 0 <= k < |aggs| ==>
      ReportsCall(fpu, aggs[k], Filter(rows, GroupOf(groupBy, out)), Get(out, AGGREGATE_ID, |groupBy| + k))
  }

  /** The group-by columns can be read under their own names as well. */
  predicate ShowsKeys(groupBy: seq<ColumnRef>, out: Row) {
    forall j :: 0 <= j < |groupBy| ==> RowEnv(out)(groupBy[j]) == Get(out, AGGREGATE_ID, j)
  }

  // ----- the output rows have it -----

  lemma {:induction false} KeyColumnsOnly(groupBy: seq<ColumnRef>, cells: Cells, o: nat)
    requires |groupBy| <= |cells| && forall ref :: ref in groupBy ==> ref.tableId != AGGREGATE_ID
    ensures (AGGREGATE_ID, o) !in KeyColumns(groupBy, cells)
  {
    if groupBy != [] {
      var n := |groupBy| - 1;
      assert groupBy[n] in groupBy && forall ref :: ref in groupBy[..n] ==> ref in groupBy;
      KeyColumnsOnly(groupBy[..n], cells, o);
    }
  }

  lemma OutputCell(groupBy: seq<ColumnRef>, cells: Cells, o: nat)
    requires |groupBy| <= |cells| && o < |cells| && forall ref :: ref in groupBy ==> ref.tableId != AGGREGATE_ID
    ensures Get(AggregateRow(groupBy)(cells), AGGREGATE_ID, o) == cells[o]
  {
    CellMapGet(AGGREGATE_ID, cells, AGGREGATE_ID, o);
    KeyColumnsOnly(groupBy, cells, o);
  }

  /** Equal columns hold equal key cells, so it does not matter which one is kept. */
  lemma {:induction false} KeyColumnShown(groupBy: seq<ColumnRef>, r: Row, cells: Cells, j: nat)
    requires |groupBy| <= |cells| && j < |groupBy|
    requires forall i :: 0 <= i < |groupBy| ==> cells[i] == RowEnv(r)(groupBy[i])
    ensures (groupBy[j].tableId, groupBy[j].ordinal) in KeyColumns(groupBy, cells)
    ensures Get(KeyColumns(groupBy, cells), groupBy[j].tableId, groupBy[j].ordinal) == cells[j]
  {
    var n := |groupBy| - 1;
    if j < n { KeyColumnShown(groupBy[..n], r, cells, j); }
  }

  lemma KeysShown(groupBy: seq<ColumnRef>, r: Row, cells: Cells)
    requires |groupBy| <= |cells| && forall ref :: ref in groupBy ==> ref.tableId != AGGREGATE_ID
    requires forall j :: 0 <= j < |groupBy| ==> cells[j] == RowEnv(r)(groupBy[j])
    ensures ShowsKeys(groupBy, AggregateRow(groupBy)(cells))
  {
    forall j | 0 <= j < |groupBy|
      ensures RowEnv(AggregateRow(groupBy)(cells))(groupBy[j]) == Get(AggregateRow(groupBy)(cells), AGGREGATE_ID, j)
    {
      OutputCell(groupBy, cells, j);
      KeyColumnShown(groupBy, r, cells, j);
    }
  }

  /** The rows with this key are the rows of the group. */
  lemma MembersOfKey(groupBy: seq<ColumnRef>, rows: seq<Row>, k: Key, out: Row)
    requires |k| == |groupBy| && forall j :: 0 <= j < |k| ==> Get(out, AGGREGATE_ID, j) == k[j]
    ensures Members(rows, KeyOf(groupBy), groupBy == [], k) == Filter(rows, GroupOf(groupBy, out))
  {
    if groupBy == [] {
      FilterAll(rows, GroupOf(groupBy, out));
    } else {
      forall r | r in rows ensures WithKey(KeyOf(groupBy), k)(r) == GroupOf(groupBy, out)(r) {
        assert KeyOf(groupBy)(r) == k <==> InGroup(groupBy, out, r);
      }
      FilterSame(rows, WithKey(KeyOf(groupBy), k), GroupOf(groupBy, out));
    }
  }

  lemma KeyLength(groupBy: seq<ColumnRef>, rows: seq<Row>, k: Key)
    requires k in GroupKeys(rows, KeyOf(groupBy), groupBy == [])
    ensures |k| == |groupBy| && (groupBy != [] ==> exists r :: r in rows && k == KeyOf(groupBy)(r))
  {
    if groupBy != [] {
      DistinctMember(Map(rows, KeyOf(groupBy)), k);
      var i :| 0 <= i < |rows| && Map(rows, KeyOf(groupBy))[i] == k;
      assert rows[i] in rows && k == KeyOf(groupBy)(rows[i]);
    }
  }

  /** Output row by output row: the key it stands for. */
  lemma KeyOfOutput(w: World, i: Plan, groupBy: seq<ColumnRef>, aggs: seq<AggCall>, n: nat)
    requires Relational(i) && n < |Denote(w, AggregateNode(i, groupBy, aggs))|
    ensures var keys := GroupKeys(Denote(w, i), KeyOf(groupBy), groupBy == []);
      && n < |keys| == |Denote(w, AggregateNode(i, groupBy, aggs))|
      && Denote(w, AggregateNode(i, groupBy, aggs))[n] == OutputFor(w.fpu, Denote(w, i), groupBy, aggs, keys[n])
  {
  }

  lemma CallReports(fpu: FloatUnit, aggs: seq<AggCall>, members: seq<Row>, k: Key, j: nat)
    requires j < |aggs|
    ensures var cells := GroupCells(fpu, Map(aggs, SpecOf()), ArgOf(aggs), members, k);
      && |cells| == |k| + |aggs| && cells[..|k|] == k
      && ReportsCall(fpu, aggs[j], members, cells[|k| + j])
  {
    assert Map(members, ArgAt(ArgOf(aggs), j)) == Map(members, ArgumentOf(aggs[j]));
    SummarizeReports(fpu, aggs[j].fn, ArgumentType(aggs[j]), Map(members, ArgumentOf(aggs[j])));
  }

  predicate TableColumns(groupBy: seq<ColumnRef>) { forall ref :: ref in groupBy ==> ref.tableId != AGGREGATE_ID }

  function OutputFor(fpu: FloatUnit, rows: seq<Row>, groupBy: seq<ColumnRef>, aggs: seq<AggCall>, k: Key): Row {
    AggregateRow(groupBy)(
      CellsFor(fpu, Map(aggs, SpecOf()), KeyOf(groupBy), ArgOf(aggs), groupBy == [], rows)(k))
  }

  lemma OutputCells(fpu: FloatUnit, rows: seq<Row>, groupBy: seq<ColumnRef>, aggs: seq<AggCall>, k: Key)
    requires TableColumns(groupBy) && |k| == |groupBy|
    ensures var members := Members(rows, KeyOf(groupBy), groupBy == [], k);
      var cells := GroupCells(fpu, Map(aggs, SpecOf()), ArgOf(aggs), members, k);
      && OutputFor(fpu, rows, groupBy, aggs, k) == AggregateRow(groupBy)(cells)
      && |cells| == |groupBy| + |aggs| && cells[..|groupBy|] == k
      && forall o: nat :: o < |cells| ==> Get(AggregateRow(groupBy)(cells), AGGREGATE_ID, o) == cells[o]
  {
    var members := Members(rows, KeyOf(groupBy), groupBy == [], k);
    var cells := GroupCells(fpu, Map(aggs, SpecOf()), ArgOf(aggs), members, k);
    forall o: nat | o < |cells| ensures Get(AggregateRow(groupBy)(cells), AGGREGATE_ID, o) == cells[o] {
      OutputCell(groupBy, cells, o);
    }
  }

  /** The output row starts with the key. */
  predicate StartsWith(out: Row, k: Key) { forall j :: 0 <= j < |k| ==> Get(out, AGGREGATE_ID, j) == k[j] }

  lemma OutputKey(fpu: FloatUnit, rows: seq<Row>, groupBy: seq<ColumnRef>, aggs: seq<AggCall>, k: Key)
    requires TableColumns(groupBy) && |k| == |groupBy|
    ensures StartsWith(OutputFor(fpu, rows, groupBy, aggs, k), k)
  {
    OutputCells(fpu, rows, groupBy, aggs, k);
    var members := Members(rows, KeyOf(groupBy), groupBy == [], k);
    var cells := GroupCells(fpu, Map(aggs, SpecOf()), ArgOf(aggs), members, k);
    forall j: nat | j < |k| ensures Get(AggregateRow(groupBy)(cells), AGGREGATE_ID, j) == k[j] {
      assert cells[..|groupBy|][j] == cells[j];
    }
  }

  lemma CallReported(fpu: FloatUnit, rows: seq<Row>, groupBy: seq<ColumnRef>, aggs: seq<AggCall>, k: Key, out: Row,
                     j: nat)
    requires TableColumns(groupBy) && |k| == |groupBy| && j < |aggs| && out == OutputFor(fpu, rows, groupBy, aggs, k)
    ensures ReportsCall(fpu, aggs[j], Filter(rows, GroupOf(groupBy, out)), Get(out, AGGREGATE_ID, |groupBy| + j))
  {
    var members := Members(rows, KeyOf(groupBy), groupBy == [], k);
    OutputKey(fpu, rows, groupBy, aggs, k);
    MembersOfKey(groupBy, rows, k, out);
    OutputCells(fpu, rows, groupBy, aggs, k);
    CallReports(fpu, aggs, members, k, j);
  }

  lemma OutputReports(fpu: FloatUnit, rows: seq<Row>, groupBy: seq<ColumnRef>, aggs: seq<AggCall>, k: Key, out: Row)
    requires TableColumns(groupBy) && |k| == |groupBy| && out == OutputFor(fpu, rows, groupBy, aggs, k)
    ensures ReportsCalls(fpu, groupBy, aggs, rows, out)
  {
    forall j | 0 <= j < |aggs|
      ensures ReportsCall(fpu, aggs[j], Filter(rows, GroupOf(groupBy, out)), Get(out, AGGREGATE_ID, |groupBy| + j))
    {
      CallReported(fpu, rows, groupBy, aggs, k, out, j);
    }
  }

  lemma CellsShown(groupBy: seq<ColumnRef>, rows: seq<Row>, k: Key, cells: Cells)
    requires TableColumns(groupBy) && k in GroupKeys(rows, KeyOf(groupBy), groupBy == [])
    requires |k| == |groupBy| <= |cells| && cells[..|groupBy|] == k
    ensures ShowsKeys(groupBy, AggregateRow(groupBy)(cells))
  {
    if groupBy != [] {
      KeyLength(groupBy, rows, k);
      var r :| r in rows && k == KeyOf(groupBy)(r);
      forall j | 0 <= j < |groupBy| ensures cells[j] == RowEnv(r)(groupBy[j]) { assert cells[j] == k[j]; }
      KeysShown(groupBy, r, cells);
    }
  }

  lemma OutputShows(fpu: FloatUnit, rows: seq<Row>, groupBy: seq<ColumnRef>, aggs: seq<AggCall>, k: Key)
    requires TableColumns(groupBy) && |k| == |groupBy| && k in GroupKeys(rows, KeyOf(groupBy), groupBy == [])
    ensures ShowsKeys(groupBy, OutputFor(fpu, rows, groupBy, aggs, k))
  {
    OutputCells(fpu, rows, groupBy, aggs, k);
    var members := Members(rows, KeyOf(groupBy), groupBy == [], k);
    CellsShown(groupBy, rows, k, GroupCells(fpu, Map(aggs, SpecOf()), ArgOf(aggs), members, k));
  }

  lemma OutputOfKey(fpu: FloatUnit, rows: seq<Row>, groupBy: seq<ColumnRef>, aggs: seq<AggCall>, k: Key)
    requires TableColumns(groupBy) && k in GroupKeys(rows, KeyOf(groupBy), groupBy == [])
    ensures var out := OutputFor(fpu, rows, groupBy, aggs, k);
      && ReportsCalls(fpu, groupBy, aggs, rows, out) && ShowsKeys(groupBy, out)
      && |k| == |groupBy| && StartsWith(out, k)
  {
    KeyLength(groupBy, rows, k);
    OutputKey(fpu, rows, groupBy, aggs, k);
    OutputReports(fpu, rows, groupBy, aggs, k, OutputFor(fpu, rows, groupBy, aggs, k));
    OutputShows(fpu, rows, groupBy, aggs, k);
  }

  /** Every output row of an aggregate reports its calls over the rows of its group. */
  lemma AggregateMeans(w: World, i: Plan, groupBy: seq<ColumnRef>, aggs: seq<AggCall>, n: nat)
    requires Relational(i) && TableColumns(groupBy) && n < |Denote(w, AggregateNode(i, groupBy, aggs))|
    ensures var out := Denote(w, AggregateNode(i, groupBy, aggs))[n];
      ReportsCalls(w.fpu, groupBy, aggs, Denote(w, i), out) && ShowsKeys(groupBy, out)
  {
    KeyOfOutput(w, i, groupBy, aggs, n);
    var keys := GroupKeys(Denote(w, i), KeyOf(groupBy), groupBy == []);
    assert keys[n] in keys;
    OutputOfKey(w.fpu, Denote(w, i), groupBy, aggs, keys[n]);
  }

  lemma KeyPlace(groupBy: seq<ColumnRef>, rows: seq<Row>, r: Row) returns (n: nat)
    requires r in rows
    ensures var keys := GroupKeys(rows, KeyOf(groupBy), groupBy == []);
      && n < |keys| && keys[n] == KeyOf(groupBy)(r)
      && forall m :: 0 <= m < |keys| && keys[m] == KeyOf(groupBy)(r) ==> m == n
  {
    var keys, k := GroupKeys(rows, KeyOf(groupBy), groupBy == []), KeyOf(groupBy)(r);
    if groupBy == [] {
      n := 0;
    } else {
      var i :| 0 <= i < |rows| && rows[i] == r;
      assert Map(rows, KeyOf(groupBy))[i] == k;
      DistinctMember(Map(rows, KeyOf(groupBy)), k);
      DistinctUnique(Map(rows, KeyOf(groupBy)));
      n :| n < |keys| && keys[n] == k;
    }
  }

  /** The row is in the group of output row `n` and in no other. */
  predicate OnlyGroup(groupBy: seq<ColumnRef>, outs: seq<Row>, r: Row, n: nat) {
    && n < |outs| && InGroup(groupBy, outs[n], r)
    && forall m :: 0 <= m < |outs| && InGroup(groupBy, outs[m], r) ==> m == n
  }

  predicate KeyShown(groupBy: seq<ColumnRef>, keys: seq<Key>, outs: seq<Row>, n: nat) {
    && n < |keys| && n < |outs| && |keys[n]| == |groupBy|
    && forall j :: 0 <= j < |groupBy| ==> Get(outs[n], AGGREGATE_ID, j) == keys[n][j]
  }

  lemma OnlyOne(groupBy: seq<ColumnRef>, keys: seq<Key>, outs: seq<Row>, r: Row, n: nat)
    requires |outs| == |keys| && n < |keys| && keys[n] == KeyOf(groupBy)(r)
    requires forall m :: 0 <= m < |outs| ==> KeyShown(groupBy, keys, outs, m)
    requires forall m :: 0 <= m < |keys| && keys[m] == KeyOf(groupBy)(r) ==> m == n
    ensures OnlyGroup(groupBy, outs, r, n)
  {
    assert KeyShown(groupBy, keys, outs, n);
    forall m | 0 <= m < |outs| && InGroup(groupBy, outs[m], r) ensures m == n {
      assert KeyShown(groupBy, keys, outs, m);
      assert keys[m] == KeyOf(groupBy)(r);
    }
  }

  lemma KeysAreShown(w: World, i: Plan, groupBy: seq<ColumnRef>, aggs: seq<AggCall>)
    requires Relational(i) && TableColumns(groupBy)
    ensures var keys, outs := GroupKeys(Denote(w, i), KeyOf(groupBy), groupBy == []),
                              Denote(w, AggregateNode(i, groupBy, aggs));
      |outs| == |keys| && forall n :: 0 <= n < |outs| ==> KeyShown(groupBy, keys, outs, n)
  {
    var rows, outs := Denote(w, i), Denote(w, AggregateNode(i, groupBy, aggs));
    var keys := GroupKeys(rows, KeyOf(groupBy), groupBy == []);
    forall n | 0 <= n < |outs| ensures KeyShown(groupBy, keys, outs, n) {
      KeyOfOutput(w, i, groupBy, aggs, n);
      assert keys[n] in keys;
      OutputOfKey(w.fpu, rows, groupBy, aggs, keys[n]);
    }
  }

  /** Every input row is in the group of exactly one output row; without GROUP BY
      there is one output row, also for no rows. */
  lemma OneGroupEach(w: World, i: Plan, groupBy: seq<ColumnRef>, aggs: seq<AggCall>)
    requires Relational(i) && TableColumns(groupBy)
    ensures var rows, outs := Denote(w, i), Denote(w, AggregateNode(i, groupBy, aggs));
      && (groupBy == [] ==> |outs| == 1)
      && forall r :: r in rows ==> exists n :: 0 <= n < |outs| && OnlyGroup(groupBy, outs, r, n)
  {
    var rows, outs := Denote(w, i), Denote(w, AggregateNode(i, groupBy, aggs));
    var keys := GroupKeys(rows, KeyOf(groupBy), groupBy == []);
    KeysAreShown(w, i, groupBy, aggs);
    forall r | r in rows ensures exists n :: 0 <= n < |outs| && OnlyGroup(groupBy, outs, r, n) {
      var n := KeyPlace(groupBy, rows, r);
      OnlyOne(groupBy, keys, outs, r, n);
    }
  }

  /** With GROUP BY no output row is without an input row. */
  lemma NoEmptyGroup(w: World, i: Plan, groupBy: seq<ColumnRef>, aggs: seq<AggCall>, n: nat)
    requires Relational(i) && TableColumns(groupBy) && groupBy != []
    requires n < |Denote(w, AggregateNode(i, groupBy, aggs))|
    ensures exists r :: r in Denote(w, i) && InGroup(groupBy, Denote(w, AggregateNode(i, groupBy, aggs))[n], r)
  {
    var rows, outs := Denote(w, i), Denote(w, AggregateNode(i, groupBy, aggs));
    var keys := GroupKeys(rows, KeyOf(groupBy), false);
    KeysAreShown(w, i, groupBy, aggs);
    assert KeyShown(groupBy, keys, outs, n) && keys[n] in keys;
    KeyLength(groupBy, rows, keys[n]);
    var r :| r in rows && keys[n] == KeyOf(groupBy)(r);
    assert InGroup(groupBy, outs[n], r);
  }

  // ----- planning asks for the same functions -----

  lemma {:induction false} SpecsAsked(aggs: seq<AggCall>, child: Plan)
    requires SpecsFor(aggs, child).Some?
    ensures |SpecsFor(aggs, child).value| == |aggs|
    ensures forall k :: 0 <= k < |aggs| ==> Asks(SpecsFor(aggs, child).value[k], aggs[k], child)
  {
    if aggs != [] { SpecsAsked(aggs[..|aggs| - 1], child); }
  }

  /** The planned aggregate is the call's function over the call's column. */
  predicate Asks(s: AggregateSpec, call: AggCall, child: Plan) {
    && s.spec.fn == call.fn && s.spec.ty == ArgumentType(call)
    && (call.arg.None? <==> s.column.None?)
    && (call.arg.Some? ==> s.column == FindColumnPosition(child, call.arg.value))
  }

  lemma {:induction false} PositionsAsked(refs: seq<ColumnRef>, child: Plan)
    requires PositionsOf(refs, child).Some?
    ensures |PositionsOf(refs, child).value| == |refs|
    ensures forall k :: 0 <= k < |refs| ==>
      FindColumnPosition(child, refs[k]) == Some(PositionsOf(refs, child).value[k])
  {
    if refs != [] { PositionsAsked(refs[..|refs| - 1], child); }
  }

  /** A planned aggregate has the functions, argument columns and group-by
      columns that the query names, in order. */
  lemma PlannedAsAsked(catalog: set<nat>, i: Plan, groupBy: seq<ColumnRef>, aggs: seq<AggCall>)
    requires Translate(catalog, AggregateNode(i, groupBy, aggs)).Some?
    ensures var op := Translate(catalog, AggregateNode(i, groupBy, aggs)).value;
      && op.AggregateOp? && Translate(catalog, i) == Some(op.child)
      && |op.specs| == |aggs| && |op.groupColumns| == |op.groupTypes| == |groupBy|
      && (forall k :: 0 <= k < |aggs| ==> Asks(op.specs[k], aggs[k], i))
      && (forall j :: 0 <= j < |groupBy| ==>
           FindColumnPosition(i, groupBy[j]) == Some(op.groupColumns[j]) && op.groupTypes[j] == groupBy[j].ty)
  {
    SpecsAsked(aggs, i);
    PositionsAsked(groupBy, i);
  }
}
