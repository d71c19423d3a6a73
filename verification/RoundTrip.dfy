/** Insert, then scan: what comes back is what went in. And a pool that already
    caches pages stays good while rows are inserted behind its back. */
module RoundTrip {
  import opened Seqs
  import opened Types
  import opened LogicalPlan
  import opened Physical
  import opened ZoneMaps
  import opened Footer
  import opened Disk
  import opened Bitmap
  import opened Chunks
  import opened BufferPool
  import opened Layout
  import opened Insert
  import opened ScanPins
  import opened Scan
  import opened SeqScan

  // ----- the pool and direct writes -----

  /** A fresh pool shows the file. */
  lemma FreshReady(n: nat, d: DiskState, end: nat)
    requires n >= 2 && end <= d.nextFree && end * PAGE_SIZE <= |d.file|
    ensures Ready(FreshPool(n, d), FilePages(d.file), 1, end, multiset{}, map[])
  {
    FreshPoolCoherent(n, d);
    var pool := FreshPool(n, d);
    forall p: nat | 1 <= p < end ensures PageInFile(d.file, p) && View(pool, p) == At(FilePages(d.file), p) {
      assert (p + 1) * PAGE_SIZE <= end * PAGE_SIZE;
    }
  }

  lemma FramesKept(pool: Pool, d': DiskState)
    requires PoolSound(pool, {}, None) && CachedBelow(pool) && Kept(pool.disk, d')
    ensures FramesCurrent(pool.frames, pool.pages, d'.file, {})
  {
    forall f | 0 <= f < |pool.frames| ensures FrameCurrent(pool.frames[f], pool.pages[f], d'.file, {}) {
      assert FrameCurrent(pool.frames[f], pool.pages[f], pool.disk.file, {});
      if pool.frames[f].inUse {
        var p := pool.frames[f].pageId;
        assert p in pool.table;
        assert FilePage(d'.file, p) == FilePage(pool.disk.file, p);
      }
    }
  }

  lemma WrittenView(pool: Pool, d': DiskState, p: nat)
    requires CachedBelow(pool) && Kept(pool.disk, d') && Shows(pool, FilePages(pool.disk.file), 1, pool.disk.nextFree)
    requires |pool.pages| == |pool.frames| && TableInverse(pool.frames, pool.table)
    requires 1 <= p < d'.nextFree && (p + 1) * PAGE_SIZE <= |d'.file|
    ensures PageInFile(d'.file, p) && View(pool.(disk := d'), p) == At(FilePages(d'.file), p)
  {
    if p < pool.disk.nextFree {
      assert View(pool, p) == At(FilePages(pool.disk.file), p);
      assert FilePage(d'.file, p) == FilePage(pool.disk.file, p);
    }
  }

  /** Writes to freshly allocated pages never hit a cached page: the pool keeps
      its invariant and shows the old pages as before and the new ones as written. */
  lemma DirectWritesInvisible(pool: Pool, d': DiskState)
    requires Ready(pool, FilePages(pool.disk.file), 1, pool.disk.nextFree, multiset{}, map[])
    requires Kept(pool.disk, d') && d'.nextFree * PAGE_SIZE <= |d'.file|
    ensures Ready(pool.(disk := d'), FilePages(d'.file), 1, d'.nextFree, multiset{}, map[])
  {
    var pool' := pool.(disk := d');
    FramesKept(pool, d');
    forall p: nat | 1 <= p < d'.nextFree ensures PageInFile(d'.file, p) && View(pool', p) == At(FilePages(d'.file), p) {
      assert (p + 1) * PAGE_SIZE <= d'.nextFree * PAGE_SIZE;
      WrittenView(pool, d', p);
    }
    assert forall q: nat :: PinsOf(pool', q) == PinsOf(pool, q);
  }

  // ----- the scan of all columns -----

  function AllOrdinals(n: nat): seq<nat> { seq(n, i => i) }

  lemma PickAll(row: Cells)
    ensures Pick(AllOrdinals(|row|))(row) == row
  {
  }

  lemma {:induction false} ViewOfRows(groups: seq<RowGroup>, contents: seq<Content>)
    requires |groups| == |contents|
    ensures Flatten(Map(TableView(groups, contents), RowsOfGroup())) == StoredRows(contents)
  {
    if groups != [] {
      var gi, ci := groups[..|groups| - 1], contents[..|contents| - 1];
      var g, c := groups[|groups| - 1], contents[|contents| - 1];
      ViewOfRows(gi, ci);
      assert TableView(groups, contents) == TableView(gi, ci) + [GroupView(g, c)];
      MapSnoc(TableView(gi, ci), GroupView(g, c), RowsOfGroup());
      FlattenSnoc(Map(TableView(gi, ci), RowsOfGroup()), ContentRows(c));
    }
  }

  lemma {:induction false} StoredRowsWide(contents: seq<Content>, types: seq<TypeId>)
    requires ContentsTyped(contents, types)
    ensures forall r :: r in StoredRows(contents) ==> |r| == |types|
  {
    if contents != [] {
      StoredRowsWide(contents[..|contents| - 1], types);
    }
  }

  /** Picking every column of every row changes nothing. */
  lemma FullScanRows(groups: seq<RowGroup>, contents: seq<Content>, types: seq<TypeId>)
    requires |groups| == |contents| && ContentsTyped(contents, types)
    ensures ScanGroups(TableView(groups, contents), AllOrdinals(|types|), None) == Some(StoredRows(contents))
  {
    FullScan(TableView(groups, contents), AllOrdinals(|types|));
    ViewOfRows(groups, contents);
    StoredRowsWide(contents, types);
    PickAllRows(StoredRows(contents), |types|);
  }

  lemma PickAllRows(rows: seq<Cells>, n: nat)
    requires forall r :: r in rows ==> |r| == n
    ensures Map(rows, Pick(AllOrdinals(n))) == rows
  {
    var picked := Map(rows, Pick(AllOrdinals(n)));
    forall i | 0 <= i < |rows| ensures picked[i] == rows[i] {
      assert rows[i] in rows;
      PickAll(rows[i]);
    }
  }

  /** The bitmap page a VARCHAR scan fetches covers this row group. */
  predicate GroupReadable(g: RowGroup, types: seq<TypeId>) {
    forall o :: 0 <= o < |types| && types[o] == Varchar ==>
      o * ByteCount(g.rowCount) + (if g.rowCount == 0 then 0 else g.rowCount - 1) / BITS_PER_BYTE < PAGE_SIZE
  }

  lemma ReadableIff(g: RowGroup, types: seq<TypeId>)
    requires g.rowCount > 0 && OrdinalsIn(AllOrdinals(|types|), |types|)
    ensures GroupFine(g, types, AllOrdinals(|types|), None) <==> GroupReadable(g, types)
  {
    var all := AllOrdinals(|types|);
    forall o | 0 <= o < |types| ensures all[o] == o { }
    if GroupFine(g, types, all, None) {
      forall o | 0 <= o < |types| && types[o] == Varchar
        ensures o * ByteCount(g.rowCount) + (g.rowCount - 1) / BITS_PER_BYTE < PAGE_SIZE
      {
        assert BitOnFirstPage(ByteCount(g.rowCount), all[o], g.rowCount - 1);
      }
    }
  }

  /** A full row group can be scanned if and only if no VARCHAR column comes fourth or later. */
  lemma FourthVarcharColumn(g: RowGroup, types: seq<TypeId>)
    requires g.rowCount == ROW_GROUP_SIZE
    ensures GroupReadable(g, types) <==> forall o :: 3 <= o < |types| ==> types[o] != Varchar
  {
    if GroupReadable(g, types) {
      forall o | 3 <= o < |types| ensures types[o] != Varchar {
        assert o * ByteCount(ROW_GROUP_SIZE) >= 3 * ByteCount(ROW_GROUP_SIZE);
      }
    }
  }

  lemma ViewRowTyped(c: Content, types: seq<TypeId>, i: nat)
    requires ColumnsValid(c.columns, c.rows) && ColumnsTyped(c.columns, types) && i < c.rows
    ensures CellsTyped(RowOf(c.columns, c.rows, i), types)
  {
    forall o | 0 <= o < |types| ensures HasType(RowOf(c.columns, c.rows, i)[o], types[o]) {
      assert ColumnValid(c.columns[o], c.rows);
    }
  }

  /** The zone map of a stored column is the zone of the cells scanned from it. */
  lemma ViewZone(pages: Pages, g: RowGroup, c: Content, lo: nat, hi: nat, o: nat)
    requires GroupStored(pages, g, c, lo, hi) && o < |c.columns|
    ensures ColumnCells(ContentRows(c), o) == c.columns[o].cells
    ensures o < |g.columns| && ZoneOfEntry(g.columns[o]) == ZoneOf(c.columns[o].ty, c.columns[o].cells)
  {
    assert ColumnStored(pages, g.columns[o], c.columns[o], lo, hi);
    CellsOfColumn(c, o);
  }

  /** No float column of the row group begins with a NaN. */
  predicate NaNFree(c: Content) {
    forall k :: 0 <= k < |c.columns| && c.columns[k].ty == Float ==> !NaNFirst(c.columns[k].cells)
  }

  /** A stored row group, seen as rows with zone maps, is one the optimizer's
      skipping theorem applies to. */
  lemma StoredGroupSound(pages: Pages, g: RowGroup, c: Content, lo: nat, hi: nat, types: seq<TypeId>)
    requires GroupStored(pages, g, c, lo, hi) && ColumnsTyped(c.columns, types) && NaNFree(c)
    ensures GroupSound(GroupView(g, c), types)
  {
    var v := GroupView(g, c);
    forall r | r in v.rows ensures CellsTyped(r, types) {
      var i :| 0 <= i < c.rows && v.rows[i] == r;
      ViewRowTyped(c, types, i);
    }
    forall o: nat | o < |types|
      ensures v.zones[o] == ZoneOf(types[o], ColumnCells(v.rows, o))
      ensures types[o] == Float ==> !NaNFirst(ColumnCells(v.rows, o))
    {
      ViewZone(pages, g, c, lo, hi, o);
    }
  }

  lemma CellsOfColumn(c: Content, o: nat)
    requires ColumnsValid(c.columns, c.rows) && o < |c.columns|
    ensures ColumnCells(ContentRows(c), o) == c.columns[o].cells
  {
    assert ColumnValid(c.columns[o], c.rows);
    var cells := ColumnCells(ContentRows(c), o);
    forall i | 0 <= i < c.rows ensures cells[i] == c.columns[o].cells[i] {
      assert ContentRows(c)[i] == RowOf(c.columns, c.rows, i);
    }
  }

  // ----- insert, then scan -----

  function EndOf(extents: seq<(nat, nat)>): (end: nat)
    ensures forall k :: 0 <= k < |extents| ==> extents[k].1 <= end
    ensures end == 1 || exists k :: 0 <= k < |extents| && extents[k].1 == end
  {
    if extents == [] then 1
    else
      var rest, last := EndOf(extents[..|extents| - 1]), extents[|extents| - 1].1;
      assert forall k :: 0 <= k < |extents| - 1 ==> extents[..|extents| - 1][k] == extents[k];
      if last > rest then last else rest
  }

  ghost predicate AllTextsFit(contents: seq<Content>) { forall k :: 0 <= k < |contents| ==> TextsFit(contents[k]) }

  /** The inserted table as the source of a scan. */
  ghost function SourceOf(d: DiskState, contents: seq<Content>, extents: seq<(nat, nat)>): Source {
    Source(FilePages(d.file), contents, extents, EndOf(extents))
  }

  lemma InsertedIsSource(d: DiskState, groups: seq<RowGroup>, contents: seq<Content>, extents: seq<(nat, nat)>,
                         types: seq<TypeId>)
    requires TableStored(d, groups, contents, extents) && ContentsTyped(contents, types) && AllTextsFit(contents)
    ensures Sourced(SourceOf(d, contents, extents), groups, types)
  {
    forall k | 0 <= k < |groups|
      ensures GroupFits(FilePages(d.file), EndOf(extents), types, groups[k], contents[k], extents[k])
    {
      assert StoredIn(d, groups[k], contents[k], extents[k]);
    }
  }

  lemma InsertedReady(d: DiskState, groups: seq<RowGroup>, contents: seq<Content>, extents: seq<(nat, nat)>, n: nat)
    requires TableStored(d, groups, contents, extents) && Usable(d) && n >= 2
    ensures Ready(FreshPool(n, d), FilePages(d.file), 1, EndOf(extents), multiset{}, map[])
  {
    var end := EndOf(extents);
    if end != 1 {
      var k :| 0 <= k < |extents| && extents[k].1 == end;
      assert StoredIn(d, groups[k], contents[k], extents[k]);
      FreshReady(n, d, end);
    } else {
      FreshPoolCoherent(n, d);
      assert FreshPool(n, d).table == map[];
    }
  }

  predicate AllReadable(groups: seq<RowGroup>, types: seq<TypeId>) {
    forall k :: 0 <= k < |groups| ==> GroupReadable(groups[k], types)
  }

  lemma AllReadableIff(s: Source, groups: seq<RowGroup>, types: seq<TypeId>)
    requires Sourced(s, groups, types) && OrdinalsIn(AllOrdinals(|types|), |types|)
    ensures FineBetween(groups, types, AllOrdinals(|types|), None, 0, |groups|) <==> AllReadable(groups, types)
  {
    forall k | 0 <= k < |groups|
      ensures GroupFine(groups[k], types, AllOrdinals(|types|), None) <==> GroupReadable(groups[k], types)
    {
      ViewRows(s, groups, types, k);
      ReadableIff(groups[k], types);
    }
  }

  /** Scanning every column of a stored table through a fresh pool. */
  method ScanStored(disk: DiskManager, poolSize: nat, types: seq<TypeId>, groups: seq<RowGroup>,
                    ghost contents: seq<Content>, ghost extents: seq<(nat, nat)>) returns (ok: bool, chunks: seq<Chunk>)
    requires TableStored(disk.state, groups, contents, extents) && Usable(disk.state) && poolSize >= 2
    requires ContentsTyped(contents, types) && AllTextsFit(contents)
    modifies disk
    ensures ok <==> AllReadable(groups, types)
    ensures ok ==> AllValid(chunks) && Stream(chunks) == StoredRows(contents)
  {
    ghost var source := SourceOf(disk.state, contents, extents);
    InsertedIsSource(disk.state, groups, contents, extents, types);
    InsertedReady(disk.state, groups, contents, extents, poolSize);
    AllReadableIff(source, groups, types);
    FullScanRows(groups, contents, types);
    ok, chunks := ScanAll(disk, poolSize, types, groups, source);
  }

  /** Scanning every column of what was inserted, through a fresh pool of two or
      more frames, delivers exactly the inserted rows in order. It succeeds
      exactly when the first bitmap page covers every VARCHAR column; otherwise
      the code would read validity bits from foreign bytes. */
  method ScanInserted(exec: InsertExecutor, poolSize: nat) returns (ok: bool, chunks: seq<Chunk>)
    requires exec.Valid() && exec.rowCount == 0 && AllTextsFit(exec.contents) && poolSize >= 2
    modifies exec.disk
    ensures ok <==> AllReadable(exec.groups, exec.types)
    ensures ok ==> AllValid(chunks) && Stream(chunks) == old(exec.Rows())
  {
    NothingStaged(exec.contents, exec.columns);
    ok, chunks := ScanStored(exec.disk, poolSize, exec.types, exec.groups, exec.contents, exec.extents);
  }

  lemma NothingStaged(contents: seq<Content>, columns: seq<Column>)
    requires ColumnsValid(columns, 0)
    ensures StoredRows(contents) + RowsOf(columns, 0) == StoredRows(contents)
  {
    PlusEmpty(StoredRows(contents));
  }

  method ScanAll(disk: DiskManager, poolSize: nat, types: seq<TypeId>, groups: seq<RowGroup>, ghost source: Source)
      returns (ok: bool, chunks: seq<Chunk>)
    requires Sourced(source, groups, types)
    requires Ready(FreshPool(poolSize, disk.state), source.pages, 1, source.end, multiset{}, map[])
    modifies disk
    ensures ok <==> FineBetween(groups, types, AllOrdinals(|types|), None, 0, |groups|)
    ensures ok ==>
      AllValid(chunks) &&
        ScanGroups(TableView(groups, source.contents), AllOrdinals(|types|), None) == Some(Stream(chunks))
  {
    var pool := new BufferPoolManager(poolSize, disk);
    var scan := new SeqScanOperator(pool, types, groups, AllOrdinals(|types|), None, source);
    ok, chunks := scan.Drain();
  }
}
