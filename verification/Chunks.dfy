/** Data chunks: up to 1024 rows stored by column, with a selection vector.
    A chunk is a value; the rows it stands for are its selected ones. */
module Chunks {
  import opened Seqs
  import opened Types
  import opened LogicalPlan

  /** Every reader of a column asks for NULL first, so a cell is enough. */
  datatype Column = Column(ty: TypeId, cells: seq<Datum>)

  datatype Chunk = Chunk(rowCount: nat, columns: seq<Column>, selected: seq<bool>)

  predicate ColumnValid(c: Column, n: nat) {
    |c.cells| == n && forall i :: 0 <= i < n ==> HasType(c.cells[i], c.ty)
  }

  predicate Valid(c: Chunk) {
    && c.rowCount <= VECTOR_SIZE
    && |c.selected| == c.rowCount
    && forall k :: 0 <= k < |c.columns| ==> ColumnValid(c.columns[k], c.rowCount)
  }

  function TypesOf(c: Chunk): seq<TypeId> { Map(c.columns, (k: Column) => k.ty) }

  function RowAt(c: Chunk, i: nat): Cells
    requires Valid(c) && i < c.rowCount
  {
    seq(|c.columns|, k requires 0 <= k < |c.columns| => c.columns[k].cells[i])
  }

  function SelectedPrefix(c: Chunk, n: nat): seq<Cells>
    requires Valid(c) && n <= c.rowCount
  {
    if n == 0 then []
    else if c.selected[n - 1] then SelectedPrefix(c, n - 1) + [RowAt(c, n - 1)]
    else SelectedPrefix(c, n - 1)
  }

  function SelectedRows(c: Chunk): seq<Cells>
    requires Valid(c)
  {
    SelectedPrefix(c, c.rowCount)
  }

  predicate AllValid(cs: seq<Chunk>) { forall c :: c in cs ==> Valid(c) }

  /** The rows a stream of chunks stands for. */
  function Stream(cs: seq<Chunk>): seq<Cells>
    requires AllValid(cs)
  {
    if cs == [] then [] else Stream(cs[..|cs| - 1]) + SelectedRows(cs[|cs| - 1])
  }

  /** Some chunk has rows in it, selected or not. */
  predicate AnyRows(cs: seq<Chunk>) { exists c :: c in cs && c.rowCount > 0 }

  /** Nothing is filtered out of these chunks. */
  predicate AllFull(cs: seq<Chunk>) { forall c :: c in cs ==> Valid(c) && |SelectedRows(c)| == c.rowCount }

  lemma {:induction false} FullStream(cs: seq<Chunk>)
    requires AllFull(cs)
    ensures AllValid(cs) && (AnyRows(cs) <==> Stream(cs) != [])
  {
    if cs != [] {
      var init, last := cs[..|cs| - 1], cs[|cs| - 1];
      FullStream(init);
      SplitLast(cs);
      assert AnyRows(cs) <==> AnyRows(init) || last.rowCount > 0 by {
        if c :| c in init && c.rowCount > 0 { assert c in cs; }
        assert last in cs;
      }
    }
  }

  lemma StreamSnoc(cs: seq<Chunk>, c: Chunk)
    requires AllValid(cs) && Valid(c)
    ensures AllValid(cs + [c]) && Stream(cs + [c]) == Stream(cs) + SelectedRows(c)
  {
    assert (cs + [c])[..|cs|] == cs;
  }

  lemma TailOfSnoc<T>(s: seq<T>)
    requires |s| >= 2
    ensures s[1..] == s[..|s| - 1][1..] + [s[|s| - 1]]
  {
  }

  lemma {:induction false} StreamHead(cs: seq<Chunk>)
    requires AllValid(cs) && cs != []
    ensures AllValid(cs[1..]) && Stream(cs) == SelectedRows(cs[0]) + Stream(cs[1..])
  {
    if |cs| == 1 {
      assert cs == [] + [cs[0]] && cs[1..] == [];
      StreamSnoc([], cs[0]);
      PlusEmpty(SelectedRows(cs[0]));
    } else {
      var init, last := cs[..|cs| - 1], cs[|cs| - 1];
      assert forall c :: c in init ==> c in cs;
      StreamHead(init);
      StreamSnoc(init[1..], last);
      TailOfSnoc(cs);
      SplitLast(cs);
      Assoc(SelectedRows(init[0]), Stream(init[1..]), SelectedRows(last));
    }
  }

  /** All rows selected: the view is simply the rows. */
  lemma {:induction false} SelectedAll(c: Chunk, n: nat)
    requires Valid(c) && n <= c.rowCount && forall i :: 0 <= i < n ==> c.selected[i]
    ensures SelectedPrefix(c, n) == seq(n, i requires 0 <= i < n => RowAt(c, i))
  {
    if n > 0 { SelectedAll(c, n - 1); }
  }

  // ----- columns that grow row by row -----

  function EmptyColumns(types: seq<TypeId>): seq<Column> { Map(types, (ty: TypeId) => Column(ty, [])) }

  predicate ColumnsValid(cols: seq<Column>, n: nat) {
    forall k :: 0 <= k < |cols| ==> ColumnValid(cols[k], n)
  }

  predicate ColumnsTyped(cols: seq<Column>, types: seq<TypeId>) {
    |cols| == |types| && forall k :: 0 <= k < |cols| ==> cols[k].ty == types[k]
  }

  function RowOf(cols: seq<Column>, n: nat, i: nat): Cells
    requires ColumnsValid(cols, n) && i < n
  {
    seq(|cols|, k requires 0 <= k < |cols| => cols[k].cells[i])
  }

  function RowsOf(cols: seq<Column>, n: nat): seq<Cells>
    requires ColumnsValid(cols, n)
  {
    seq(n, i requires 0 <= i < n => RowOf(cols, n, i))
  }

  /** One more row: a cell goes onto the end of every column. */
  method AppendRow(cols: seq<Column>, ghost n: nat, types: seq<TypeId>, row: Cells) returns (out: seq<Column>)
    requires ColumnsValid(cols, n) && ColumnsTyped(cols, types) && CellsTyped(row, types)
    ensures ColumnsValid(out, n + 1) && ColumnsTyped(out, types)
    ensures RowsOf(out, n + 1) == RowsOf(cols, n) + [row]
  {
    out := [];
    for c := 0 to |cols|
      invariant |out| == c
      invariant forall k :: 0 <= k < c ==> out[k] == Column(cols[k].ty, cols[k].cells + [row[k]])
    {
      out := out + [Column(cols[c].ty, cols[c].cells + [row[c]])];
    }
    forall i | 0 <= i < n ensures RowOf(out, n + 1, i) == RowOf(cols, n, i) { }
    assert RowOf(out, n + 1, n) == row;
  }

  function AllSelected(cols: seq<Column>, n: nat): Chunk { Chunk(n, cols, seq(n, _ => true)) }

  lemma AllSelectedRows(cols: seq<Column>, n: nat)
    requires ColumnsValid(cols, n) && n <= VECTOR_SIZE
    ensures Valid(AllSelected(cols, n)) && SelectedRows(AllSelected(cols, n)) == RowsOf(cols, n)
    ensures |SelectedRows(AllSelected(cols, n))| == n
  {
    var c := AllSelected(cols, n);
    SelectedAll(c, n);
    forall i | 0 <= i < n ensures RowAt(c, i) == RowOf(cols, n, i) { }
  }

  // ----- the rows of a chunk from some row on -----

  function SelectedFrom(c: Chunk, r: nat): seq<Cells>
    requires Valid(c) && r <= c.rowCount
    decreases c.rowCount - r
  {
    if r == c.rowCount then []
    else if c.selected[r] then [RowAt(c, r)] + SelectedFrom(c, r + 1)
    else SelectedFrom(c, r + 1)
  }

  lemma {:induction false} PrefixAndRest(c: Chunk, r: nat)
    requires Valid(c) && r <= c.rowCount
    ensures SelectedRows(c) == SelectedPrefix(c, r) + SelectedFrom(c, r)
    decreases c.rowCount - r
  {
    if r < c.rowCount { PrefixAndRest(c, r + 1); }
  }

  lemma TypedColumns(cols: seq<Column>, n: nat, types: seq<TypeId>)
    requires ColumnsTyped(cols, types)
    ensures TypesOf(AllSelected(cols, n)) == types
  {
  }

  lemma ChunkRowTyped(c: Chunk, i: nat)
    requires Valid(c) && i < c.rowCount
    ensures CellsTyped(RowAt(c, i), TypesOf(c))
  {
  }

  predicate ChunksTyped(cs: seq<Chunk>, types: seq<TypeId>) {
    forall c :: c in cs ==> Valid(c) && TypesOf(c) == types
  }

  lemma {:induction false} PrefixRowsTyped(c: Chunk, n: nat)
    requires Valid(c) && n <= c.rowCount
    ensures forall r :: r in SelectedPrefix(c, n) ==> CellsTyped(r, TypesOf(c))
  {
    if n > 0 {
      PrefixRowsTyped(c, n - 1);
      ChunkRowTyped(c, n - 1);
    }
  }

  lemma {:induction false} StreamRowsTyped(cs: seq<Chunk>, types: seq<TypeId>)
    requires ChunksTyped(cs, types)
    ensures AllValid(cs) && forall r :: r in Stream(cs) ==> CellsTyped(r, types)
  {
    if cs != [] {
      var init, last := cs[..|cs| - 1], cs[|cs| - 1];
      assert forall c :: c in init ==> c in cs;
      StreamRowsTyped(init, types);
      assert last in cs;
      PrefixRowsTyped(last, last.rowCount);
    }
  }
}
