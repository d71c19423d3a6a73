/** The sequential scan: row group by row group, 1024 rows at a time, through
    the buffer pool. */
module Scan {
  import opened Seqs
  import opened Types
  import opened ByteIO
  import opened ZoneMaps
  import opened Footer
  import opened Bitmap
  import opened Chunks
  import opened BufferPool
  import opened Layout
  import opened ScanCells
  import opened ScanPins

  // ----- one column of one vector -----

  /** Rows `start` up to `start + m` of vector `v`. */
  predicate VectorIn(rows: nat, v: nat, start: nat, m: nat) {
    start == v * VECTOR_SIZE && 0 < m <= VECTOR_SIZE && start + m <= rows
  }

  function FixedRange(e: ColumnEntry): Option<PageRange> {
    match e
    case IntEntry(r, _, _) => Some(r)
    case FloatEntry(r, _, _) => Some(r)
    case StrEntry(_, _, _, _) => None
  }

  /** A fixed-width entry of a stored column. */
  lemma FixedStored(pages: Pages, g: RowGroup, c: Content, lo: nat, hi: nat, o: nat)
    requires GroupStored(pages, g, c, lo, hi) && o < |c.columns| && c.columns[o].ty != Varchar
    ensures o < |g.columns| && FixedRange(g.columns[o]).Some?
    ensures Within(FixedRange(g.columns[o]).value, lo, hi)
    ensures Holds(pages, FixedRange(g.columns[o]).value, FixedBytes(c.columns[o].cells))
  {
    assert ColumnStored(pages, g.columns[o], c.columns[o], lo, hi);
    ZoneOfWellBuilt(c.columns[o].ty, c.columns[o].cells);
  }

  /** The page holds the words of cells `start` up to `start + m`. */
  ghost predicate Words(page: Bytes, cells: seq<Datum>, start: nat, m: nat) {
    && |page| == PAGE_SIZE && m <= VECTOR_SIZE && start + m <= |cells|
    && forall i: nat :: i < m ==> WordAt(page, i) == Raw(cells[start + i])
  }

  lemma VectorWords(pages: Pages, r: PageRange, cells: seq<Datum>, v: nat, start: nat, m: nat)
    requires Holds(pages, r, FixedBytes(cells)) && VectorIn(|cells|, v, start, m)
    ensures v < r.count && Words(At(pages, r.start + v), cells, start, m)
  {
    FixedValue(pages, r, cells, v, 0);
    var page := At(pages, r.start + v);
    forall i: nat | i < m ensures WordAt(page, i) == Raw(cells[start + i]) {
      FixedValue(pages, r, cells, v, i);
    }
  }

  /** The bits of column `o` tell its NULLs. */
  ghost predicate ValidityIs(bitmap: Bytes, stride: nat, o: nat, cells: seq<Datum>) {
    forall row: nat :: row < |cells| ==> BitOf(bitmap, stride, o, row) == (cells[row] != Null)
  }

  lemma BitmapRead(pages: Pages, g: RowGroup, c: Content, lo: nat, hi: nat, o: nat)
    requires GroupStored(pages, g, c, lo, hi) && o < |c.columns|
    ensures |c.columns[o].cells| == c.rows
    ensures ValidityIs(RegionBytes(pages, g.bitmap.start, g.bitmap.count), ByteCount(c.rows), o, c.columns[o].cells)
  {
    assert ColumnValid(c.columns[o], c.rows);
    var bitmap := RegionBytes(pages, g.bitmap.start, g.bitmap.count);
    WholeRegion(pages, g.bitmap, c.bits);
    forall row: nat | row < c.rows
      ensures BitOf(bitmap, ByteCount(c.rows), o, row) == (c.columns[o].cells[row] != Null)
    {
      ValidityRead(bitmap, c, o, row);
    }
  }

  method ReadFixed(page: Bytes, bitmap: Bytes, stride: nat, ty: TypeId, o: nat, start: nat, m: nat,
                   ghost cells: seq<Datum>)
      returns (out: seq<Datum>)
    requires Words(page, cells, start, m) && ValidityIs(bitmap, stride, o, cells)
    requires ty != Varchar && forall d :: d in cells ==> HasType(d, ty)
    ensures out == cells[start..start + m]
  {
    out := [];
    for i := 0 to m
      invariant out == cells[start..start + i]
    {
      assert cells[start + i] in cells;
      if !BitOf(bitmap, stride, o, start + i) {
        out := out + [Null];
      } else {
        RawRoundTrip(ty, cells[start + i]);
        out := out + [OfRaw(ty, WordAt(page, i))];
      }
    }
  }

  /** Everything a fixed-width read relies on. */
  lemma FixedSource(pages: Pages, g: RowGroup, c: Content, lo: nat, hi: nat, o: nat, v: nat, start: nat, m: nat)
    requires GroupStored(pages, g, c, lo, hi) && o < |c.columns| && c.columns[o].ty != Varchar &&
      VectorIn(c.rows, v, start, m)
    ensures o < |g.columns| && g.rowCount == c.rows && FixedRange(g.columns[o]).Some?
    ensures var r := FixedRange(g.columns[o]).value;
      1 <= r.start && r.start + v < hi && Words(At(pages, r.start + v), c.columns[o].cells, start, m)
    ensures 1 <= g.bitmap.start && g.bitmap.start + g.bitmap.count <= hi
    ensures ValidityIs(RegionBytes(pages, g.bitmap.start, g.bitmap.count), ByteCount(c.rows), o, c.columns[o].cells)
    ensures forall d :: d in c.columns[o].cells ==> HasType(d, c.columns[o].ty)
  {
    FixedStored(pages, g, c, lo, hi, o);
    assert ColumnValid(c.columns[o], c.rows);
    VectorWords(pages, FixedRange(g.columns[o]).value, c.columns[o].cells, v, start, m);
    BitmapRead(pages, g, c, lo, hi, o);
  }

  method AppendFixedWidth(pool: BufferPoolManager, g: RowGroup, ty: TypeId, o: nat, v: nat, start: nat, m: nat,
                          ghost pages: Pages, ghost c: Content, ghost lo: nat, ghost hi: nat,
                            ghost end: nat) returns (cells: seq<Datum>)
    requires Ready(pool.State(), pages, 1, end, multiset{}, map[]) && pool.unsaved == {} && hi <= end
    requires GroupStored(pages, g, c, lo, hi) && o < |c.columns| && c.columns[o].ty == ty && ty != Varchar
    requires VectorIn(c.rows, v, start, m)
    modifies pool, pool.replacer, pool.disk
    ensures pool.unsaved == {} && Ready(pool.State(), pages, 1, end, multiset{}, map[])
    ensures cells == c.columns[o].cells[start..start + m]
  {
    FixedSource(pages, g, c, lo, hi, o, v, start, m);
    var r := FixedRange(g.columns[o]).value;
    cells := ReadVector(pool, r.start + v, g.bitmap, (g.rowCount + 7) / 8, ty, o, start, m, pages, c.columns[o].cells,
      end);
  }

  /** The data page stays pinned while the bitmap pages come and go. */
  method ReadVector(pool: BufferPoolManager, p: nat, bitmapRange: PageRange, stride: nat, ty: TypeId, o: nat,
                    start: nat, m: nat,
                    ghost pages: Pages, ghost cells: seq<Datum>, ghost end: nat) returns (out: seq<Datum>)
    requires Ready(pool.State(), pages, 1, end, multiset{}, map[]) && pool.unsaved == {}
    requires 1 <= p < end && 1 <= bitmapRange.start && bitmapRange.start + bitmapRange.count <= end
    requires Words(At(pages, p), cells, start, m)
    requires ValidityIs(RegionBytes(pages, bitmapRange.start, bitmapRange.count), stride, o, cells)
    requires ty != Varchar && forall d :: d in cells ==> HasType(d, ty)
    modifies pool, pool.replacer, pool.disk
    ensures pool.unsaved == {} && Ready(pool.State(), pages, 1, end, multiset{}, map[])
    ensures out == cells[start..start + m]
  {
    var frame := PinPage(pool, p, pages, 1, end, multiset{}, map[]);
    ghost var pins, held := multiset{} + multiset{p}, map[][p := frame];
    var bitmap := FetchWholeRegion(pool, bitmapRange.start, bitmapRange.count, pages, 1, end, pins, held);
    PointerShows(pool.State(), pages, 1, end, pins, held, p);
    out := ReadFixed(pool.pages[frame], bitmap, stride, ty, o, start, m, cells);
    ReleasePage(pool, p, pages, 1, end, pins, held);
    LastPinBack(pool.State(), pages, end, p, frame);
  }

  lemma LastPinBack(pool: Pool, pages: Pages, end: nat, p: nat, frame: nat)
    requires Ready(pool, pages, 1, end, multiset{} + multiset{p} - multiset{p},
      Let(map[][p := frame], multiset{} + multiset{p}, p))
    ensures Ready(pool, pages, 1, end, multiset{}, map[])
  {
    PinsRestored(pool, pages, 1, end, multiset{}, map[], p, frame);
  }

  // ----- one VARCHAR column of one vector -----

  ghost predicate OffsetsAre(offsets: Bytes, cells: seq<Datum>) {
    |offsets| >= 4 * (|cells| + 1) &&
    forall i: nat :: i <= |cells| ==> WordAt(offsets, i) == OffsetAt(cells, i)
  }

  lemma OffsetsRead(pages: Pages, r: PageRange, cells: seq<Datum>)
    requires Holds(pages, r, OffsetBytes(cells)) && |TextBytes(cells)| < TWO32
    ensures OffsetsAre(RegionBytes(pages, r.start, r.count), cells)
  {
    var offsets := RegionBytes(pages, r.start, r.count);
    OffsetRead(pages, r, cells, |cells|);
    forall i: nat | i <= |cells| ensures WordAt(offsets, i) == OffsetAt(cells, i) {
      OffsetRead(pages, r, cells, i);
    }
  }

  /** The text of cell `i` as it lies in the scratch bytes, which begin at `base`. */
  ghost predicate TextIn(scratch: Bytes, base: nat, cells: seq<Datum>, i: nat)
    requires i < |cells|
  {
    && base <= OffsetAt(cells, i) <= OffsetAt(cells, i + 1) && OffsetAt(cells, i + 1) - base <= |scratch|
    && scratch[OffsetAt(cells, i) - base..OffsetAt(cells, i + 1) - base] == Text(cells[i])
  }

  ghost predicate TextsIn(scratch: Bytes, base: nat, cells: seq<Datum>, start: nat, m: nat) {
    start + m <= |cells| && forall i: nat :: start <= i < start + m ==> TextIn(scratch, base, cells, i)
  }

  /** The pages from the first offset's to the last offset's hold the texts of the vector. */
  lemma TextsRead(pages: Pages, r: PageRange, cells: seq<Datum>, start: nat, m: nat, first: nat, last: nat, from: nat,
                  count: nat, base: nat)
    requires Holds(pages, r, TextBytes(cells)) && start + m <= |cells|
    requires first == OffsetAt(cells, start) / PAGE_SIZE && last == OffsetAt(cells, start + m) / PAGE_SIZE
    requires from == r.start + first && first + count == last + 1 && base == first * PAGE_SIZE
    requires forall p: nat :: r.start <= p <= r.start + r.count ==> |At(pages, p)| == PAGE_SIZE
    ensures from + count <= r.start + r.count + 1
    ensures TextsIn(RegionBytes(pages, from, count), base, cells, start, m)
  {
    OffsetsMonotone(cells, start, start + m);
    var scratch := RegionBytes(pages, from, count);
    forall i: nat | start <= i < start + m ensures TextIn(scratch, base, cells, i) {
      OffsetsMonotone(cells, start, i);
      OffsetsMonotone(cells, i + 1, start + m);
      TextRead(pages, r, cells, first, count, i);
    }
  }

  /** The one bitmap page a VARCHAR column looks at reaches this far. */
  predicate BitOnFirstPage(stride: nat, o: nat, row: nat) { o * stride + row / BITS_PER_BYTE < PAGE_SIZE }

  ghost predicate FirstPageIs(page: Bytes, stride: nat, o: nat, cells: seq<Datum>) {
    |page| == PAGE_SIZE &&
    forall row: nat :: row < |cells| && BitOnFirstPage(stride, o, row) ==>
      BitOf(page, stride, o, row) == (cells[row] != Null)
  }

  lemma FirstPageRead(pages: Pages, g: RowGroup, c: Content, lo: nat, hi: nat, o: nat)
    requires GroupStored(pages, g, c, lo, hi) && o < |c.columns| && 0 < c.rows
    ensures FirstPageIs(At(pages, g.bitmap.start), ByteCount(c.rows), o, c.columns[o].cells) && 0 < g.bitmap.count
  {
    BitmapRead(pages, g, c, lo, hi, o);
    RowByte(0, c.rows);
    RegionIndex(o, |c.columns|, 0, ByteCount(c.rows));
    var region, page := RegionBytes(pages, g.bitmap.start, g.bitmap.count), At(pages, g.bitmap.start);
    HeldPagesWhole(pages, g.bitmap, c.bits);
    RegionByte(pages, g.bitmap.start, g.bitmap.count, 0);
    FirstPageBits(region, page, ByteCount(c.rows), o, c.columns[o].cells);
  }

  lemma FirstPageBits(region: Bytes, page: Bytes, stride: nat, o: nat, cells: seq<Datum>)
    requires |page| == PAGE_SIZE <= |region| && region[0..PAGE_SIZE] == page && ValidityIs(region, stride, o, cells)
    ensures FirstPageIs(page, stride, o, cells)
  {
    forall row: nat | row < |cells| && BitOnFirstPage(stride, o, row)
      ensures BitOf(page, stride, o, row) == (cells[row] != Null)
    {
      PrefixBit(page, region, stride, o, row);
    }
  }

  method ReadString(offsets: Bytes, scratch: Bytes, base: nat, page: Bytes, stride: nat, o: nat, row: nat,
                    ghost cells: seq<Datum>)
      returns (d: Datum)
    requires OffsetsAre(offsets, cells) && FirstPageIs(page, stride, o, cells) && row < |cells|
    requires TextIn(scratch, base, cells, row) && BitOnFirstPage(stride, o, row) && HasType(cells[row], Varchar)
    ensures d == cells[row]
  {
    var s, e := WordAt(offsets, row), WordAt(offsets, row + 1);
    if !BitOf(page, stride, o, row) {
      d := Null;
    } else {
      d := StrD(scratch[s - base..e - base]);
    }
  }

  /** None is a bit looked for behind the one bitmap page that was fetched. The
      code has no such guard: there it reads whatever bytes follow the page's
      frame in memory, and the result is then not determined by the table. So
      every failure that rests on this one says that the code reads foreign
      bytes, not that it throws. */
  method ReadStrings(offsets: Bytes, scratch: Bytes, base: nat, page: Bytes, stride: nat, o: nat, start: nat, m: nat,
                     ghost cells: seq<Datum>) returns (out: Option<seq<Datum>>)
    requires OffsetsAre(offsets, cells) && TextsIn(scratch, base, cells, start, m) &&
      FirstPageIs(page, stride, o, cells)
    requires 0 < m && forall d :: d in cells ==> HasType(d, Varchar)
    ensures out.Some? <==> BitOnFirstPage(stride, o, start + m - 1)
    ensures out.Some? ==> out.value == cells[start..start + m]
  {
    var done: seq<Datum> := [];
    assert cells[start..start] == [];
    for i := 0 to m
      invariant done == cells[start..start + i]
      invariant i > 0 ==> BitOnFirstPage(stride, o, start + i - 1)
    {
      var row: nat := start + i;
      assert cells[row] in cells;
      if !BitOnFirstPage(stride, o, row) {
        LaterBit(stride, o, row, start + m - 1);
        return None;
      }
      var d := ReadString(offsets, scratch, base, page, stride, o, row, cells);
      SliceGrows(cells, start, row);
      done := done + [d];
    }
    out := Some(done);
  }

  lemma LaterBit(stride: nat, o: nat, row: nat, last: nat)
    requires row <= last && !BitOnFirstPage(stride, o, row)
    ensures !BitOnFirstPage(stride, o, last)
  {
  }

  /** Everything a VARCHAR read relies on. The page behind the last text page is
      a page of the same row group, since the bitmap is written after the columns. */
  lemma StringSource(pages: Pages, g: RowGroup, c: Content, lo: nat, hi: nat, o: nat)
    requires GroupStored(pages, g, c, lo, hi) && o < |c.columns| && c.columns[o].ty == Varchar && 0 < c.rows
    ensures o < |g.columns| && g.rowCount == c.rows && |c.columns[o].cells| == c.rows && g.columns[o].StrEntry?
    ensures Within(g.columns[o].offsets, lo, hi) && Holds(pages, g.columns[o].offsets, OffsetBytes(c.columns[o].cells))
    ensures Within(g.columns[o].data, lo, hi) && Holds(pages, g.columns[o].data, TextBytes(c.columns[o].cells))
    ensures 1 <= lo <= g.bitmap.start < hi
    ensures FirstPageIs(At(pages, g.bitmap.start), ByteCount(c.rows), o, c.columns[o].cells)
    ensures forall d :: d in c.columns[o].cells ==> HasType(d, Varchar)
  {
    assert ColumnStored(pages, g.columns[o], c.columns[o], lo, hi);
    assert ColumnValid(c.columns[o], c.rows);
    ZoneOfWellBuilt(c.columns[o].ty, c.columns[o].cells);
    FirstPageRead(pages, g, c, lo, hi, o);
  }

  method AppendVarchar(pool: BufferPoolManager, g: RowGroup, o: nat, v: nat, start: nat, m: nat,
                       ghost pages: Pages, ghost c: Content, ghost lo: nat, ghost hi: nat, ghost end: nat)
      returns (out: Option<seq<Datum>>)
    requires Ready(pool.State(), pages, 1, end, multiset{}, map[]) && pool.unsaved == {} && hi <= end
    requires GroupStored(pages, g, c, lo, hi) && o < |c.columns| && c.columns[o].ty == Varchar
    requires VectorIn(c.rows, v, start, m) && |TextBytes(c.columns[o].cells)| < TWO32
    modifies pool, pool.replacer, pool.disk
    ensures pool.unsaved == {} && Ready(pool.State(), pages, 1, end, multiset{}, map[])
    ensures out.Some? <==> BitOnFirstPage(ByteCount(c.rows), o, start + m - 1)
    ensures out.Some? ==> out.value == c.columns[o].cells[start..start + m]
  {
    StringSource(pages, g, c, lo, hi, o);
    ShownPagesWhole(pool.State(), pages, 1, end, multiset{}, map[]);
    out := ReadTexts(pool, g.columns[o].offsets, g.columns[o].data, g.bitmap.start, (g.rowCount + 7) / 8, o, start, m,
                     pages, c.columns[o].cells, end);
  }

  /** The data pages that hold the texts of the vector. */
  method DataSpan(offsets: Bytes, dataRange: PageRange, start: nat, m: nat, ghost pages: Pages, ghost cells: seq<Datum>)
      returns (from: nat, count: nat, base: nat)
    requires OffsetsAre(offsets, cells) && start + m <= |cells| && Holds(pages, dataRange, TextBytes(cells))
    requires forall p: nat :: dataRange.start <= p <= dataRange.start + dataRange.count ==> |At(pages, p)| == PAGE_SIZE
    ensures dataRange.start <= from && from + count <= dataRange.start + dataRange.count + 1
    ensures TextsIn(RegionBytes(pages, from, count), base, cells, start, m)
  {
    var byteStart, byteEnd := WordAt(offsets, start), WordAt(offsets, start + m);
    OffsetsMonotone(cells, start, start + m);
    var first, last := byteStart / PAGE_SIZE, byteEnd / PAGE_SIZE;
    from, count, base := dataRange.start + first, last - first + 1, first * PAGE_SIZE;
    TextsRead(pages, dataRange, cells, start, m, first, last, from, count, base);
  }

  method ReadTexts(pool: BufferPoolManager, offsetRange: PageRange, dataRange: PageRange, bitmapPage: nat, stride: nat,
                   o: nat, start: nat, m: nat, ghost pages: Pages, ghost cells: seq<Datum>, ghost end: nat)
      returns (out: Option<seq<Datum>>)
    requires Ready(pool.State(), pages, 1, end, multiset{}, map[]) && pool.unsaved == {}
    requires Within(offsetRange, 1, end) && Within(dataRange, 1, end) && 1 <= bitmapPage < end
    requires Holds(pages, offsetRange, OffsetBytes(cells)) && Holds(pages, dataRange, TextBytes(cells))
    requires forall p: nat :: 1 <= p < end ==> |At(pages, p)| == PAGE_SIZE
    requires |TextBytes(cells)| < TWO32 && FirstPageIs(At(pages, bitmapPage), stride, o, cells)
    requires 0 < m && start + m <= |cells| && forall d :: d in cells ==> HasType(d, Varchar)
    modifies pool, pool.replacer, pool.disk
    ensures pool.unsaved == {} && Ready(pool.State(), pages, 1, end, multiset{}, map[])
    ensures out.Some? <==> BitOnFirstPage(stride, o, start + m - 1)
    ensures out.Some? ==> out.value == cells[start..start + m]
  {
    OffsetsRead(pages, offsetRange, cells);
    var offsets := FetchWholeRegion(pool, offsetRange.start, offsetRange.count, pages, 1, end, multiset{}, map[]);
    var from, count, base := DataSpan(offsets, dataRange, start, m, pages, cells);
    var scratch := FetchWholeRegion(pool, from, count, pages, 1, end, multiset{}, map[]);
    out := ReadUnderBitmap(pool, offsets, scratch, base, bitmapPage, stride, o, start, m, pages, cells, end);
  }

  /** Only the first page of the bitmap region is fetched, and stays pinned while it is read. */
  method ReadUnderBitmap(pool: BufferPoolManager, offsets: Bytes, scratch: Bytes, base: nat, bitmapPage: nat,
                         stride: nat,
                         o: nat, start: nat, m: nat, ghost pages: Pages, ghost cells: seq<Datum>, ghost end: nat)
      returns (out: Option<seq<Datum>>)
    requires Ready(pool.State(), pages, 1, end, multiset{}, map[]) && pool.unsaved == {} && 1 <= bitmapPage < end
    requires OffsetsAre(offsets, cells) && TextsIn(scratch, base, cells, start, m)
    requires FirstPageIs(At(pages, bitmapPage), stride, o, cells)
    requires 0 < m && forall d :: d in cells ==> HasType(d, Varchar)
    modifies pool, pool.replacer, pool.disk
    ensures pool.unsaved == {} && Ready(pool.State(), pages, 1, end, multiset{}, map[])
    ensures out.Some? <==> BitOnFirstPage(stride, o, start + m - 1)
    ensures out.Some? ==> out.value == cells[start..start + m]
  {
    var frame := PinPage(pool, bitmapPage, pages, 1, end, multiset{}, map[]);
    ghost var pins, held := multiset{} + multiset{bitmapPage}, map[][bitmapPage := frame];
    PointerShows(pool.State(), pages, 1, end, pins, held, bitmapPage);
    out := ReadStrings(offsets, scratch, base, pool.pages[frame], stride, o, start, m, cells);
    ReleasePage(pool, bitmapPage, pages, 1, end, pins, held);
    LastPinBack(pool.State(), pages, end, bitmapPage, frame);
  }
}
