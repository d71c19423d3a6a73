/** The scan operator as a state machine over row groups and vectors: the
    chunks it hands out are the stored rows, and zone maps let it pass over
    whole row groups. */
module SeqScan {
  import opened Seqs
  import opened Types
  import opened LogicalPlan
  import opened Physical
  import opened ZoneMaps
  import opened Footer
  import opened Bitmap
  import opened Chunks
  import opened BufferPool
  import opened Layout
  import opened Insert
  import opened ScanPins
  import opened Scan

  function EntryZone(): ColumnEntry -> ColumnZone { (e: ColumnEntry) => ZoneOfEntry(e) }

  /** A stored row group as the reference semantics sees it. */
  function GroupView(g: RowGroup, c: Content): StoredGroup { StoredGroup(ContentRows(c), Map(g.columns, EntryZone())) }

  function TableView(groups: seq<RowGroup>, contents: seq<Content>): seq<StoredGroup>
    requires |groups| == |contents|
  {
    seq(|groups|, k requires 0 <= k < |groups| => GroupView(groups[k], contents[k]))
  }

  // ----- one chunk -----

  predicate OrdinalsIn(ordinals: seq<nat>, n: nat) { forall k :: 0 <= k < |ordinals| ==> ordinals[k] < n }

  /** Every VARCHAR column of the scan finds the bit of `row` on the first bitmap page. */
  predicate RowReadable(types: seq<TypeId>, ordinals: seq<nat>, n: nat, rows: nat, row: nat)
    requires OrdinalsIn(ordinals, |types|)
  {
    forall k :: 0 <= k < n && k < |ordinals| && types[ordinals[k]] == Varchar ==>
      BitOnFirstPage(ByteCount(rows), ordinals[k], row)
  }

  /** The types of the scanned columns. */
  function ScanTypes(types: seq<TypeId>, ordinals: seq<nat>): seq<TypeId>
    requires OrdinalsIn(ordinals, |types|)
  {
    seq(|ordinals|, k requires 0 <= k < |ordinals| => types[ordinals[k]])
  }

  /** What the scan hands over: non-empty chunks of the scanned columns, nothing filtered out. */
  predicate ScanChunk(types: seq<TypeId>, ordinals: seq<nat>, c: Chunk)
    requires OrdinalsIn(ordinals, |types|)
  {
    Chunks.Valid(c) && TypesOf(c) == ScanTypes(types, ordinals) && |SelectedRows(c)| == c.rowCount > 0
  }

  /** A chunk has 1024 rows unless it is the last of its row group. */
  predicate FullOrLast(c: Chunk, nextVector: nat) {
    c.rowCount == VECTOR_SIZE || (c.rowCount < VECTOR_SIZE && nextVector == 0)
  }

  /** A staging column keeps its text offsets in int32. */
  ghost predicate TextsFit(c: Content) {
    forall k :: 0 <= k < |c.columns| ==> |TextBytes(c.columns[k].cells)| < TWO31
  }

  method AppendColumn(pool: BufferPoolManager, g: RowGroup, ty: TypeId, o: nat, v: nat, start: nat, m: nat,
                      ghost pages: Pages, ghost c: Content, ghost lo: nat, ghost hi: nat,
                        ghost end: nat) returns (out: Option<Column>)
    requires Ready(pool.State(), pages, 1, end, multiset{}, map[]) && pool.unsaved == {} && hi <= end
    requires GroupStored(pages, g, c, lo, hi) && o < |c.columns| && c.columns[o].ty == ty
    requires VectorIn(c.rows, v, start, m) && |TextBytes(c.columns[o].cells)| < TWO32
    modifies pool, pool.replacer, pool.disk
    ensures pool.unsaved == {} && Ready(pool.State(), pages, 1, end, multiset{}, map[])
    ensures out.Some? <==> (ty == Varchar ==> BitOnFirstPage(ByteCount(c.rows), o, start + m - 1))
    ensures out.Some? ==>
      start + m <= |c.columns[o].cells| && out.value == Column(ty, c.columns[o].cells[start..start + m])
  {
    assert ColumnValid(c.columns[o], c.rows);
    if ty == Varchar {
      var cells := AppendVarchar(pool, g, o, v, start, m, pages, c, lo, hi, end);
      out := if cells.Some? then Some(Column(ty, cells.value)) else None;
    } else {
      var cells := AppendFixedWidth(pool, g, ty, o, v, start, m, pages, c, lo, hi, end);
      out := Some(Column(ty, cells));
    }
  }

  /** The scanned columns, cut to the rows of the vector. */
  ghost predicate CutTo(out: seq<Column>, columns: seq<Column>, ordinals: seq<nat>, start: nat, m: nat) {
    |out| <= |ordinals| && OrdinalsIn(ordinals, |columns|) &&
    forall k :: 0 <= k < |out| ==>
      var col := columns[ordinals[k]];
      start + m <= |col.cells| && out[k] == Column(col.ty, col.cells[start..start + m])
  }

  method ReadVectors(pool: BufferPoolManager, g: RowGroup, types: seq<TypeId>, ordinals: seq<nat>, v: nat, start: nat,
                     m: nat,
                     ghost pages: Pages, ghost c: Content, ghost lo: nat, ghost hi: nat, ghost end: nat)
      returns (out: Option<seq<Column>>)
    requires Ready(pool.State(), pages, 1, end, multiset{}, map[]) && pool.unsaved == {} && hi <= end
    requires GroupStored(pages, g, c, lo, hi) && ColumnsTyped(c.columns, types) && OrdinalsIn(ordinals, |types|)
    requires VectorIn(c.rows, v, start, m) && TextsFit(c)
    modifies pool, pool.replacer, pool.disk
    ensures pool.unsaved == {} && Ready(pool.State(), pages, 1, end, multiset{}, map[])
    ensures out.Some? <==> RowReadable(types, ordinals, |ordinals|, c.rows, start + m - 1)
    ensures out.Some? ==> |out.value| == |ordinals| && CutTo(out.value, c.columns, ordinals, start, m)
  {
    var done: seq<Column> := [];
    for k := 0 to |ordinals|
      invariant pool.unsaved == {} && Ready(pool.State(), pages, 1, end, multiset{}, map[])
      invariant |done| == k && CutTo(done, c.columns, ordinals, start, m)
      invariant RowReadable(types, ordinals, k, c.rows, start + m - 1)
    {
      var more := ReadNext(pool, g, types, ordinals, v, start, m, done, pages, c, lo, hi, end);
      if more.None? {
        NotAllReadable(types, ordinals, k + 1, c.rows, start + m - 1);
        return None;
      }
      done := more.value;
    }
    out := Some(done);
  }

  lemma NotAllReadable(types: seq<TypeId>, ordinals: seq<nat>, n: nat, rows: nat, row: nat)
    requires OrdinalsIn(ordinals, |types|) && n <= |ordinals| && !RowReadable(types, ordinals, n, rows, row)
    ensures !RowReadable(types, ordinals, |ordinals|, rows, row)
  {
  }

  /** One more column of the vector. */
  method ReadNext(pool: BufferPoolManager, g: RowGroup, types: seq<TypeId>, ordinals: seq<nat>, v: nat, start: nat,
                  m: nat,
                  done: seq<Column>, ghost pages: Pages, ghost c: Content, ghost lo: nat, ghost hi: nat, ghost end: nat)
      returns (out: Option<seq<Column>>)
    requires Ready(pool.State(), pages, 1, end, multiset{}, map[]) && pool.unsaved == {} && hi <= end
    requires GroupStored(pages, g, c, lo, hi) && ColumnsTyped(c.columns, types) && OrdinalsIn(ordinals, |types|)
    requires VectorIn(c.rows, v, start, m) && TextsFit(c)
    requires |done| < |ordinals| && CutTo(done, c.columns, ordinals, start, m)
    requires RowReadable(types, ordinals, |done|, c.rows, start + m - 1)
    modifies pool, pool.replacer, pool.disk
    ensures pool.unsaved == {} && Ready(pool.State(), pages, 1, end, multiset{}, map[])
    ensures out.Some? <==> RowReadable(types, ordinals, |done| + 1, c.rows, start + m - 1)
    ensures out.Some? ==> |out.value| == |done| + 1 && CutTo(out.value, c.columns, ordinals, start, m)
  {
    var o := ordinals[|done|];
    assert c.columns[o].ty == types[o];
    var column := AppendColumn(pool, g, types[o], o, v, start, m, pages, c, lo, hi, end);
    NextReadable(types, ordinals, |done|, c.rows, start + m - 1);
    if column.None? {
      return None;
    }
    CutMore(done, column.value, c.columns, ordinals, start, m);
    out := Some(done + [column.value]);
  }

  lemma CutMore(done: seq<Column>, column: Column, columns: seq<Column>, ordinals: seq<nat>, start: nat, m: nat)
    requires |done| < |ordinals| && CutTo(done, columns, ordinals, start, m)
    requires start + m <= |columns[ordinals[|done|]].cells|
    requires column == Column(columns[ordinals[|done|]].ty, columns[ordinals[|done|]].cells[start..start + m])
    ensures CutTo(done + [column], columns, ordinals, start, m)
  {
  }

  lemma NextReadable(types: seq<TypeId>, ordinals: seq<nat>, k: nat, rows: nat, row: nat)
    requires OrdinalsIn(ordinals, |types|) && k < |ordinals| && RowReadable(types, ordinals, k, rows, row)
    ensures RowReadable(types, ordinals, k + 1, rows, row) <==>
      (types[ordinals[k]] == Varchar ==> BitOnFirstPage(ByteCount(rows), ordinals[k], row))
  {
  }

  lemma CutRows(out: seq<Column>, c: Content, ordinals: seq<nat>, start: nat, m: nat)
    requires ColumnsValid(c.columns, c.rows) && start + m <= c.rows && |out| == |ordinals|
    requires CutTo(out, c.columns, ordinals, start, m)
    ensures ColumnsValid(out, m) && RowsOf(out, m) == Map(ContentRows(c)[start..start + m], Pick(ordinals))
  {
    forall k | 0 <= k < |out| ensures ColumnValid(out[k], m) {
      assert ColumnValid(c.columns[ordinals[k]], c.rows);
    }
    var picked := Map(ContentRows(c)[start..start + m], Pick(ordinals));
    forall i | 0 <= i < m ensures RowOf(out, m, i) == picked[i] {
      var row := RowOf(c.columns, c.rows, start + i);
      assert ContentRows(c)[start..start + m][i] == row;
      forall k | 0 <= k < |ordinals| ensures RowOf(out, m, i)[k] == Pick(ordinals)(row)[k] {
        assert out[k].cells[i] == c.columns[ordinals[k]].cells[start + i];
      }
    }
  }

  // ----- progress -----

  function Picked(g: StoredGroup, ordinals: seq<nat>, n: nat): seq<Cells>
    requires n <= |g.rows|
  {
    Map(g.rows[..n], Pick(ordinals))
  }

  /** The rows delivered when `gi` row groups are behind the scan and `n` rows of the next. */
  function Progress(table: seq<StoredGroup>, ordinals: seq<nat>, skip: Option<Skip>, gi: nat,
                    n: nat): Option<seq<Cells>>
    requires gi <= |table| && (n > 0 ==> gi < |table| && n <= |table[gi].rows|)
  {
    var before :- ScanGroups(table[..gi], ordinals, skip);
    Some(if n == 0 then before else before + Picked(table[gi], ordinals, n))
  }

  lemma GroupDone(table: seq<StoredGroup>, ordinals: seq<nat>, skip: Option<Skip>, gi: nat)
    requires gi < |table| && Progress(table, ordinals, skip, gi, 0).Some? && SkipsGroup(table[gi], skip).Some?
    ensures Progress(table, ordinals, skip, gi + 1, 0) ==
      if SkipsGroup(table[gi], skip).value then Progress(table, ordinals, skip, gi, 0)
      else Some(Progress(table, ordinals, skip, gi, 0).value + Map(table[gi].rows, Pick(ordinals)))
  {
    assert table[..gi + 1][..gi] == table[..gi];
  }

  lemma MoreRows(g: StoredGroup, ordinals: seq<nat>, start: nat, m: nat)
    requires start + m <= |g.rows|
    ensures Picked(g, ordinals, start + m) == Picked(g, ordinals, start) + Map(g.rows[start..start + m], Pick(ordinals))
  {
    assert g.rows[..start + m] == g.rows[..start] + g.rows[start..start + m];
    MapConcat(g.rows[..start], g.rows[start..start + m], Pick(ordinals));
  }

  /** One chunk moves the scan on by its rows, into the next row group at the end of this one. */
  lemma VectorDone(table: seq<StoredGroup>, ordinals: seq<nat>, skip: Option<Skip>, gi: nat, start: nat, m: nat,
                   gi': nat, n': nat)
    requires gi < |table| && start + m <= |table[gi].rows| && SkipsGroup(table[gi], skip) == Some(false)
    requires Progress(table, ordinals, skip, gi, start).Some?
    requires if start + m < |table[gi].rows| then gi' == gi && n' == start + m && m > 0 else gi' == gi + 1 && n' == 0
    ensures Progress(table, ordinals, skip, gi', n')
         == Some(Progress(table, ordinals, skip, gi, start).value +
           Map(table[gi].rows[start..start + m], Pick(ordinals)))
  {
    var g := table[gi];
    var before := Progress(table, ordinals, skip, gi, 0).value;
    var more := Map(g.rows[start..start + m], Pick(ordinals));
    ProgressIs(table, ordinals, skip, gi, start);
    MoreRows(g, ordinals, start, m);
    Assoc(before, Picked(g, ordinals, start), more);
    if start + m == |g.rows| {
      GroupDone(table, ordinals, skip, gi);
      PickedAll(g, ordinals);
    } else {
      ProgressIs(table, ordinals, skip, gi, start + m);
    }
  }

  lemma PickedAll(g: StoredGroup, ordinals: seq<nat>)
    ensures Picked(g, ordinals, |g.rows|) == Map(g.rows, Pick(ordinals))
  {
    assert g.rows[..|g.rows|] == g.rows;
  }

  lemma ProgressIs(table: seq<StoredGroup>, ordinals: seq<nat>, skip: Option<Skip>, gi: nat, n: nat)
    requires gi < |table| && n <= |table[gi].rows| && Progress(table, ordinals, skip, gi, 0).Some?
    ensures Progress(table, ordinals, skip, gi, n) ==
      Some(Progress(table, ordinals, skip, gi, 0).value + Picked(table[gi], ordinals, n))
  {
    if n == 0 {
      assert Picked(table[gi], ordinals, 0) == [];
      PlusEmpty(Progress(table, ordinals, skip, gi, 0).value);
    }
  }

  // ----- what is scanned -----

  /** The table behind the row groups: what the pages hold, where, and up to which page. */
  datatype Source = Source(pages: Pages, contents: seq<Content>, extents: seq<(nat, nat)>, end: nat)

  ghost predicate GroupFits(pages: Pages, end: nat, types: seq<TypeId>, g: RowGroup, c: Content, e: (nat, nat)) {
    && GroupStored(pages, g, c, e.0, e.1) && e.1 <= end && 0 < c.rows
    && ColumnsTyped(c.columns, types) && TextsFit(c)
  }

  ghost predicate Sourced(s: Source, groups: seq<RowGroup>, types: seq<TypeId>) {
    && |s.contents| == |s.extents| == |groups|
    && forall k :: 0 <= k < |groups| ==> GroupFits(s.pages, s.end, types, groups[k], s.contents[k], s.extents[k])
  }

  /** ZoneMapRulesOutRowGroup on the footer entry. */
  function SkipTest(g: RowGroup, skip: Option<Skip>): Option<bool> {
    if skip.None? then Some(false)
    else if skip.value.ordinal >= |g.columns| then None
    else ZoneMapRulesOut(ZoneOfEntry(g.columns[skip.value.ordinal]), skip.value.op, skip.value.constant)
  }

  lemma SkipTestIs(g: RowGroup, c: Content, skip: Option<Skip>)
    ensures SkipTest(g, skip) == SkipsGroup(GroupView(g, c), skip)
  {
  }

  /** The row group is passed over, or every row of it can be read. */
  predicate GroupFine(g: RowGroup, types: seq<TypeId>, ordinals: seq<nat>, skip: Option<Skip>)
    requires OrdinalsIn(ordinals, |types|)
  {
    SkipTest(g, skip).Some? &&
    (SkipTest(g, skip).value || g.rowCount == 0 || RowReadable(types, ordinals, |ordinals|, g.rowCount, g.rowCount - 1))
  }

  predicate FineBetween(groups: seq<RowGroup>, types: seq<TypeId>, ordinals: seq<nat>, skip: Option<Skip>, a: nat,
                        b: nat)
    requires OrdinalsIn(ordinals, |types|)
  {
    forall k :: a <= k < b && k < |groups| ==> GroupFine(groups[k], types, ordinals, skip)
  }

  lemma UnreadableRow(types: seq<TypeId>, ordinals: seq<nat>, rows: nat, row: nat, last: nat)
    requires OrdinalsIn(ordinals, |types|) && row <= last && !RowReadable(types, ordinals, |ordinals|, rows, row)
    ensures !RowReadable(types, ordinals, |ordinals|, rows, last)
  {
    var k :| 0 <= k < |ordinals| && types[ordinals[k]] == Varchar && !BitOnFirstPage(ByteCount(rows), ordinals[k], row);
    LaterBit(ByteCount(rows), ordinals[k], row, last);
  }

  /** Where the scan stands: a row group, and a vector of it. */
  ghost predicate InPlace(groups: seq<RowGroup>, skip: Option<Skip>, gi: nat, vi: nat) {
    && gi <= |groups| && (gi == |groups| ==> vi == 0)
    && (vi > 0 ==> vi * VECTOR_SIZE < groups[gi].rowCount && SkipTest(groups[gi], skip) == Some(false))
  }

  ghost function Delivered(s: Source, groups: seq<RowGroup>, types: seq<TypeId>, ordinals: seq<nat>, skip: Option<Skip>,
                           gi: nat, vi: nat)
      : Option<seq<Cells>>
    requires Sourced(s, groups, types) && InPlace(groups, skip, gi, vi)
  {
    ViewRows(s, groups, types, gi);
    Progress(TableView(groups, s.contents), ordinals, skip, gi, vi * VECTOR_SIZE)
  }

  lemma ViewRows(s: Source, groups: seq<RowGroup>, types: seq<TypeId>, gi: nat)
    requires Sourced(s, groups, types)
    ensures gi < |groups| ==> |TableView(groups, s.contents)[gi].rows| == groups[gi].rowCount > 0
  {
    if gi < |groups| { assert GroupFits(s.pages, s.end, types, groups[gi], s.contents[gi], s.extents[gi]); }
  }

  lemma DeliveredMore(s: Source, groups: seq<RowGroup>, types: seq<TypeId>, ordinals: seq<nat>, skip: Option<Skip>,
                      gi: nat, vi: nat, start: nat, m: nat, gi': nat, vi': nat)
    requires Sourced(s, groups, types) && gi < |groups| && InPlace(groups, skip, gi, vi)
    requires SkipTest(groups[gi], skip) == Some(false)
    requires start == vi * VECTOR_SIZE &&
      m == (if groups[gi].rowCount - start < VECTOR_SIZE then groups[gi].rowCount - start else VECTOR_SIZE)
    requires if (vi + 1) * VECTOR_SIZE >= groups[gi].rowCount then gi' == gi + 1 && vi' == 0
             else gi' == gi && vi' == vi + 1
    requires Delivered(s, groups, types, ordinals, skip, gi, vi).Some?
    ensures InPlace(groups, skip, gi', vi') && start + m <= |ContentRows(s.contents[gi])|
    ensures Delivered(s, groups, types, ordinals, skip, gi', vi')
      == Some(Delivered(s, groups, types, ordinals, skip, gi, vi).value +
        Map(ContentRows(s.contents[gi])[start..start + m], Pick(ordinals)))
  {
    SkipTestIs(groups[gi], s.contents[gi], skip);
    ViewRows(s, groups, types, gi);
    VectorDone(TableView(groups, s.contents), ordinals, skip, gi, start, m, gi', vi' * VECTOR_SIZE);
  }

  /** A scan in place, with the rows it has delivered. */
  ghost predicate Standing(s: Source, groups: seq<RowGroup>, types: seq<TypeId>, ordinals: seq<nat>, skip: Option<Skip>,
                           gi: nat, vi: nat, rows: seq<Cells>) {
    && Sourced(s, groups, types) && OrdinalsIn(ordinals, |types|)
    && InPlace(groups, skip, gi, vi) && Delivered(s, groups, types, ordinals, skip, gi, vi) == Some(rows)
  }

  /** The row groups from `a` up to `b` are all ruled out. */
  predicate RuledOutBetween(groups: seq<RowGroup>, skip: Option<Skip>, a: nat, b: nat) {
    forall k :: a <= k < b && k < |groups| ==> SkipTest(groups[k], skip) == Some(true)
  }

  /** Row groups that are ruled out add nothing. */
  lemma {:induction false} PassedOver(table: seq<StoredGroup>, ordinals: seq<nat>, skip: Option<Skip>, gi: nat,
                                      goal: nat)
    requires gi <= goal <= |table| && Progress(table, ordinals, skip, gi, 0).Some?
    requires forall k :: gi <= k < goal ==> SkipsGroup(table[k], skip) == Some(true)
    ensures Progress(table, ordinals, skip, goal, 0) == Progress(table, ordinals, skip, gi, 0)
  {
    if gi < goal {
      var last: nat := goal - 1;
      PassedOver(table, ordinals, skip, gi, last);
      GroupDone(table, ordinals, skip, last);
    }
  }

  lemma ViewRuledOut(s: Source, groups: seq<RowGroup>, skip: Option<Skip>, gi: nat, goal: nat)
    requires |s.contents| == |groups| && gi <= goal <= |groups| && RuledOutBetween(groups, skip, gi, goal)
    ensures forall k :: gi <= k < goal ==> SkipsGroup(TableView(groups, s.contents)[k], skip) == Some(true)
  {
    forall k | gi <= k < goal ensures SkipsGroup(TableView(groups, s.contents)[k], skip) == Some(true) {
      SkipTestIs(groups[k], s.contents[k], skip);
    }
  }

  lemma DeliveredSkipped(s: Source, groups: seq<RowGroup>, types: seq<TypeId>, ordinals: seq<nat>, skip: Option<Skip>,
                         gi: nat, goal: nat)
    requires Sourced(s, groups, types) && gi <= goal <= |groups| && RuledOutBetween(groups, skip, gi, goal)
    requires Delivered(s, groups, types, ordinals, skip, gi, 0).Some?
    ensures Delivered(s, groups, types, ordinals, skip, goal, 0) == Delivered(s, groups, types, ordinals, skip, gi, 0)
  {
    ViewRuledOut(s, groups, skip, gi, goal);
    PassedOver(TableView(groups, s.contents), ordinals, skip, gi, goal);
  }

  lemma StandingSkipped(s: Source, groups: seq<RowGroup>, types: seq<TypeId>, ordinals: seq<nat>,
                        skip: Option<Skip>, gi: nat, vi: nat, rows: seq<Cells>, goal: nat)
    requires Standing(s, groups, types, ordinals, skip, gi, vi, rows)
    requires gi < goal <= |groups| && RuledOutBetween(groups, skip, gi, goal)
    ensures Standing(s, groups, types, ordinals, skip, goal, 0, rows)
  {
    assert vi == 0 by { assert SkipTest(groups[gi], skip) == Some(true); }
    DeliveredSkipped(s, groups, types, ordinals, skip, gi, goal);
  }

  lemma RuledOutFine(groups: seq<RowGroup>, types: seq<TypeId>, ordinals: seq<nat>, skip: Option<Skip>, a: nat, b: nat)
    requires OrdinalsIn(ordinals, |types|) && RuledOutBetween(groups, skip, a, b)
    ensures FineBetween(groups, types, ordinals, skip, a, b)
  {
  }

  lemma StandingMoved(s: Source, groups: seq<RowGroup>, types: seq<TypeId>, ordinals: seq<nat>, skip: Option<Skip>,
                      gi: nat, vi: nat, rows: seq<Cells>, start: nat, m: nat, gi': nat, vi': nat)
    requires Standing(s, groups, types, ordinals, skip, gi, vi, rows) && gi < |groups| &&
      SkipTest(groups[gi], skip) == Some(false)
    requires start == vi * VECTOR_SIZE &&
      m == (if groups[gi].rowCount - start < VECTOR_SIZE then groups[gi].rowCount - start else VECTOR_SIZE)
    requires if (vi + 1) * VECTOR_SIZE >= groups[gi].rowCount then gi' == gi + 1 && vi' == 0
             else gi' == gi && vi' == vi + 1
    requires RowReadable(types, ordinals, |ordinals|, groups[gi].rowCount, start + m - 1)
    ensures start + m <= |ContentRows(s.contents[gi])|
    ensures Standing(s, groups, types, ordinals, skip, gi', vi',
      rows + Map(ContentRows(s.contents[gi])[start..start + m], Pick(ordinals)))
    ensures FineBetween(groups, types, ordinals, skip, gi, gi')
  {
    DeliveredMore(s, groups, types, ordinals, skip, gi, vi, start, m, gi', vi');
    FineMoved(groups, types, ordinals, skip, gi, gi', start + m);
  }

  /** A row group is behind the scan only when its last row has been read. */
  lemma FineMoved(groups: seq<RowGroup>, types: seq<TypeId>, ordinals: seq<nat>, skip: Option<Skip>, gi: nat, gi': nat,
                  upTo: nat)
    requires gi < |groups| && OrdinalsIn(ordinals, |types|) && SkipTest(groups[gi], skip).Some? && 0 < upTo
    requires gi' == gi || (gi' == gi + 1 && upTo == groups[gi].rowCount)
    requires RowReadable(types, ordinals, |ordinals|, groups[gi].rowCount, upTo - 1)
    ensures FineBetween(groups, types, ordinals, skip, gi, gi')
  {
  }

  /** The first row group from `gi` on that is not ruled out; not ok means that its test throws. */
  method FirstKept(groups: seq<RowGroup>, skip: Option<Skip>, gi: nat) returns (ok: bool, gi': nat)
    requires gi <= |groups|
    ensures gi <= gi' <= |groups| && RuledOutBetween(groups, skip, gi, gi')
    ensures !ok ==> gi' < |groups| && SkipTest(groups[gi'], skip).None?
    ensures ok && gi' < |groups| ==> SkipTest(groups[gi'], skip) == Some(false)
  {
    gi' := gi;
    while gi' < |groups|
      invariant gi <= gi' <= |groups| && RuledOutBetween(groups, skip, gi, gi')
    {
      var out := SkipTest(groups[gi'], skip);
      if out.None? {
        return false, gi';
      }
      if !out.value {
        return true, gi';
      }
      gi' := gi' + 1;
    }
    ok := true;
  }

  // ----- the operator -----

  class SeqScanOperator {
    const pool: BufferPoolManager
    const types: seq<TypeId>
    const groups: seq<RowGroup>
    const ordinals: seq<nat>
    const skip: Option<Skip>
    ghost const source: Source
    var groupIndex: nat
    var vectorIndex: nat

    /** The pool shows the table's pages and nothing is pinned. */
    ghost predicate PoolValid()
      reads this, pool, pool.replacer, pool.disk
    {
      Ready(pool.State(), source.pages, 1, source.end, multiset{}, map[]) && pool.unsaved == {}
    }

    /** The rows handed out so far. */
    ghost var rows: seq<Cells>

    ghost predicate PlaceValid()
      reads this
    {
      Standing(source, groups, types, ordinals, skip, groupIndex, vectorIndex, rows)
    }

    constructor (p: BufferPoolManager, tys: seq<TypeId>, gs: seq<RowGroup>, ords: seq<nat>, sk: Option<Skip>,
                 ghost s: Source)
      requires Sourced(s, gs, tys) && OrdinalsIn(ords, |tys|)
      ensures pool == p && types == tys && groups == gs && ordinals == ords && skip == sk && source == s
      ensures groupIndex == 0 && PlaceValid() && rows == []
    {
      pool, types, groups, ordinals, skip, source := p, tys, gs, ords, sk, s;
      groupIndex, vectorIndex, rows := 0, 0, [];
    }

    /** Passes over the row groups that the zone map rules out; not ok is the
        exception thrown by the test. */
    method AdvanceToUsableRowGroup() returns (ok: bool)
      requires PlaceValid()
      modifies this`groupIndex, this`vectorIndex
      ensures PlaceValid() && old(groupIndex) <= groupIndex &&
        (old(groupIndex) == groupIndex ==> old(vectorIndex) == vectorIndex)
      ensures FineBetween(groups, types, ordinals, skip, old(groupIndex), groupIndex)
      ensures !ok ==> groupIndex < |groups| && SkipTest(groups[groupIndex], skip).None?
      ensures ok && groupIndex < |groups| ==> SkipTest(groups[groupIndex], skip) == Some(false)
    {
      var first;
      ok, first := FirstKept(groups, skip, groupIndex);
      RuledOutFine(groups, types, ordinals, skip, groupIndex, first);
      if first != groupIndex {
        StandingSkipped(source, groups, types, ordinals, skip, groupIndex, vectorIndex, rows, first);
        groupIndex, vectorIndex := first, 0;
      }
    }

    method ReadCurrent(start: nat, m: nat) returns (columns: Option<seq<Column>>)
      requires PlaceValid() && PoolValid() && groupIndex < |groups|
      requires VectorIn(groups[groupIndex].rowCount, vectorIndex, start, m)
      modifies pool, pool.replacer, pool.disk
      ensures PoolValid()
      ensures columns.Some? <==> RowReadable(types, ordinals, |ordinals|, groups[groupIndex].rowCount, start + m - 1)
      ensures columns.Some? ==>
        && ColumnsValid(columns.value, m) && ColumnsTyped(columns.value, ScanTypes(types, ordinals))
        && start + m <= |ContentRows(source.contents[groupIndex])|
        && RowsOf(columns.value, m) == Map(ContentRows(source.contents[groupIndex])[start..start + m], Pick(ordinals))
    {
      ghost var c, e := source.contents[groupIndex], source.extents[groupIndex];
      assert GroupFits(source.pages, source.end, types, groups[groupIndex], c, e);
      columns := ReadVectors(pool, groups[groupIndex], types, ordinals, vectorIndex, start, m,
                             source.pages, c, e.0, e.1, source.end);
      if columns.Some? { CutRows(columns.value, c, ordinals, start, m); }
    }

    /** The next chunk of rows, or none at the end. Not ok means that some row
        group still to come cannot be scanned. */
    method GetNext() returns (ok: bool, chunk: Option<Chunk>)
      requires PlaceValid() && PoolValid()
      modifies this, pool, pool.replacer, pool.disk
      ensures PoolValid()
      ensures !ok ==> !FineBetween(groups, types, ordinals, skip, old(groupIndex), |groups|)
      ensures ok ==> PlaceValid() && old(groupIndex) <= groupIndex
      ensures ok ==> FineBetween(groups, types, ordinals, skip, old(groupIndex), groupIndex)
      ensures ok && chunk.None? ==> groupIndex == |groups| && rows == old(rows)
      ensures ok && chunk.Some? ==>
        ScanChunk(types, ordinals, chunk.value) && rows == old(rows) + SelectedRows(chunk.value)
      ensures ok && chunk.Some? ==>
        old(groupIndex) < groupIndex || (old(groupIndex) == groupIndex && old(vectorIndex) < vectorIndex)
      ensures ok && chunk.Some? ==> FullOrLast(chunk.value, vectorIndex)
    {
      ok := AdvanceToUsableRowGroup();
      if !ok || groupIndex == |groups| {
        chunk := None;
        return;
      }
      chunk := ReadVector();
      ok := chunk.Some?;
    }

    /** The current vector of the current row group; none when the row group cannot be read. */
    method ReadVector() returns (chunk: Option<Chunk>)
      requires PlaceValid() && PoolValid() && groupIndex < |groups|
      requires SkipTest(groups[groupIndex], skip) == Some(false)
      modifies this, pool, pool.replacer, pool.disk
      ensures PoolValid()
      ensures chunk.None? ==> !GroupFine(groups[old(groupIndex)], types, ordinals, skip)
      ensures chunk.Some? ==> PlaceValid() && ScanChunk(types, ordinals, chunk.value)
      ensures chunk.Some? ==> FineBetween(groups, types, ordinals, skip, old(groupIndex), groupIndex)
      ensures chunk.Some? ==> rows == old(rows) + SelectedRows(chunk.value)
      ensures chunk.Some? ==>
        old(groupIndex) <= groupIndex && (old(groupIndex) == groupIndex ==> old(vectorIndex) < vectorIndex)
      ensures chunk.Some? ==> FullOrLast(chunk.value, vectorIndex)
    {
      var rowCount := groups[groupIndex].rowCount;
      var start := vectorIndex * VECTOR_SIZE;
      ViewRows(source, groups, types, groupIndex);
      var m: nat := if rowCount - start < VECTOR_SIZE then rowCount - start else VECTOR_SIZE;
      chunk := ReadChunk(start, m);
      if chunk.None? {
        UnreadableRow(types, ordinals, rowCount, start + m - 1, rowCount - 1);
        return None;
      }
      Step(rowCount, start, m);
    }

    /** The vector as a chunk of selected rows. */
    method ReadChunk(start: nat, m: nat) returns (chunk: Option<Chunk>)
      requires PlaceValid() && PoolValid() && groupIndex < |groups|
      requires VectorIn(groups[groupIndex].rowCount, vectorIndex, start, m)
      modifies pool, pool.replacer, pool.disk
      ensures PoolValid()
      ensures chunk.Some? <==> RowReadable(types, ordinals, |ordinals|, groups[groupIndex].rowCount, start + m - 1)
      ensures chunk.Some? ==>
        && ScanChunk(types, ordinals, chunk.value) && chunk.value.rowCount == m
        && start + m <= |ContentRows(source.contents[groupIndex])|
        && SelectedRows(chunk.value) == Map(ContentRows(source.contents[groupIndex])[start..start + m], Pick(ordinals))
    {
      var columns := ReadCurrent(start, m);
      if columns.None? {
        return None;
      }
      AllSelectedRows(columns.value, m);
      TypedColumns(columns.value, m, ScanTypes(types, ordinals));
      chunk := Some(AllSelected(columns.value, m));
    }

    /** Past this vector, and past the row group when it was the last one. */
    method Step(rowCount: nat, ghost start: nat, ghost m: nat)
      requires PlaceValid() && groupIndex < |groups| && rowCount == groups[groupIndex].rowCount
      requires SkipTest(groups[groupIndex], skip) == Some(false)
      requires start == vectorIndex * VECTOR_SIZE &&
        m == (if rowCount - start < VECTOR_SIZE then rowCount - start else VECTOR_SIZE)
      requires RowReadable(types, ordinals, |ordinals|, rowCount, start + m - 1)
      modifies this
      ensures PlaceValid() && old(groupIndex) <= groupIndex <= old(groupIndex) + 1
      ensures groupIndex == old(groupIndex) ==> vectorIndex == old(vectorIndex) + 1
      ensures m == VECTOR_SIZE || (groupIndex == old(groupIndex) + 1 && vectorIndex == 0)
      ensures FineBetween(groups, types, ordinals, skip, old(groupIndex), groupIndex)
      ensures start + m <= |ContentRows(source.contents[old(groupIndex)])|
      ensures rows == old(rows) + Map(ContentRows(source.contents[old(groupIndex)])[start..start + m], Pick(ordinals))
    {
      var gi', vi' := groupIndex, vectorIndex + 1;
      if vi' * VECTOR_SIZE >= rowCount {
        gi', vi' := gi' + 1, 0;
      }
      StandingMoved(source, groups, types, ordinals, skip, groupIndex, vectorIndex, rows, start, m, gi', vi');
      rows := rows + Map(ContentRows(source.contents[groupIndex])[start..start + m], Pick(ordinals));
      groupIndex, vectorIndex := gi', vi';
    }

    /** Runs the scan to its end. It gets there exactly when every row group is
        passed over or readable, and the chunks are then the rows of the
        reference scan. Draining terminates and leaves no page pinned. */
    method Drain() returns (ok: bool, chunks: seq<Chunk>)
      requires PlaceValid() && PoolValid() && groupIndex == 0 && rows == []
      modifies this, pool, pool.replacer, pool.disk
      ensures PoolValid()
      ensures ok <==> FineBetween(groups, types, ordinals, skip, 0, |groups|)
      ensures ok ==> forall c :: c in chunks ==> ScanChunk(types, ordinals, c)
      ensures ok ==>
        AllValid(chunks) && ScanGroups(TableView(groups, source.contents), ordinals, skip) == Some(Stream(chunks))
    {
      chunks := [];
      var more := true;
      while more
        invariant PlaceValid() && PoolValid() && AllValid(chunks) && rows == Stream(chunks)
        invariant forall c :: c in chunks ==> ScanChunk(types, ordinals, c)
        invariant FineBetween(groups, types, ordinals, skip, 0, groupIndex)
        invariant !more ==> groupIndex == |groups|
        decreases more, |groups| - groupIndex,
          if groupIndex < |groups| then groups[groupIndex].rowCount - vectorIndex else 0
      {
        var fine, chunk := GetNext();
        if !fine {
          return false, chunks;
        }
        if chunk.None? {
          more := false;
        } else {
          StreamSnoc(chunks, chunk.value);
          chunks := chunks + [chunk.value];
        }
      }
      ok := true;
      WholeTable(source, groups, types, ordinals, skip, groupIndex, vectorIndex, rows);
    }
  }

  lemma WholeTable(s: Source, groups: seq<RowGroup>, types: seq<TypeId>, ordinals: seq<nat>, skip: Option<Skip>,
                   gi: nat, vi: nat, rows: seq<Cells>)
    requires Standing(s, groups, types, ordinals, skip, gi, vi, rows) && gi == |groups|
    ensures ScanGroups(TableView(groups, s.contents), ordinals, skip) == Some(rows)
  {
    var table := TableView(groups, s.contents);
    assert table[..gi] == table;
  }
}
