/** How a row group lies in the file: the byte images of its columns and of the
    validity bitmap, each padded to whole pages. */
module Layout {
  import opened Seqs
  import opened Types
  import opened ByteIO
  import opened ZoneMaps
  import opened Footer
  import opened Disk
  import opened Bitmap
  import opened Chunks

  // ----- column images -----

  /** The 32 bits stored for a cell; a NULL is stored as zero. */
  function Raw(d: Datum): U32 {
    match d
    case IntD(i) => ToU32(i)
    case FloatD(f) => f
    case _ => 0
  }

  function RawBytes(): Datum -> Bytes { (d: Datum) => EncodeU32(Raw(d)) }

  function FixedBytes(cells: seq<Datum>): Bytes { ConcatMap(cells, RawBytes()) }

  function Text(d: Datum): Bytes { if d.StrD? then d.s else [] }
  function TextOf(): Datum -> Bytes { (d: Datum) => Text(d) }

  function TextBytes(cells: seq<Datum>): Bytes { ConcatMap(cells, TextOf()) }

  /** The running offset, kept in 32 bits. */
  function OffsetBytes(cells: seq<Datum>): Bytes {
    if cells == [] then EncodeU32(0)
    else OffsetBytes(cells[..|cells| - 1]) + EncodeU32(|TextBytes(cells)| % TWO32)
  }

  function OffsetAt(cells: seq<Datum>, i: nat): nat
    requires i <= |cells|
  {
    |TextBytes(cells[..i])|
  }

  lemma {:induction false} FixedBytesAt(cells: seq<Datum>, i: nat)
    requires i < |cells|
    ensures |FixedBytes(cells)| == 4 * |cells|
    ensures FixedBytes(cells)[4 * i..4 * i + 4] == EncodeU32(Raw(cells[i]))
    decreases |cells|
  {
    var init, last := cells[..|cells| - 1], cells[|cells| - 1];
    if init == [] {
      assert cells == [] + [last];
      ConcatMapSnoc([], last, RawBytes());
      PlusEmpty(EncodeU32(Raw(last)));
      assert EncodeU32(Raw(last))[0..4] == EncodeU32(Raw(last));
    } else {
      FixedBytesAt(init, if i < |init| then i else 0);
      TailSlice(FixedBytes(init), EncodeU32(Raw(last)), 4 * i);
    }
  }

  /** A slice of `a + b` that lies in `a`, or is all of `b`. */
  lemma TailSlice(a: Bytes, b: Bytes, i: nat)
    requires |b| == 4 && (i + 4 <= |a| || i == |a|)
    ensures (a + b)[i..i + 4] == if i == |a| then b else a[i..i + 4]
  {
  }

  lemma {:induction false} OffsetBytesAt(cells: seq<Datum>, i: nat)
    requires i <= |cells|
    ensures |OffsetBytes(cells)| == 4 * (|cells| + 1)
    ensures OffsetBytes(cells)[4 * i..4 * i + 4] == EncodeU32(OffsetAt(cells, i) % TWO32)
    decreases |cells|
  {
    if cells == [] {
      assert cells[..i] == [];
      assert EncodeU32(0)[0..4] == EncodeU32(0);
    } else {
      var init := cells[..|cells| - 1];
      OffsetBytesAt(init, if i < |cells| then i else 0);
      TailSlice(OffsetBytes(init), EncodeU32(|TextBytes(cells)| % TWO32), 4 * i);
      if i < |cells| { assert init[..i] == cells[..i]; } else { assert cells[..i] == cells; }
    }
  }

  /** Each string lies between its offset and the next. */
  lemma TextAt(cells: seq<Datum>, i: nat)
    requires i < |cells|
    ensures OffsetAt(cells, i) <= OffsetAt(cells, i + 1) <= |TextBytes(cells)|
    ensures TextBytes(cells)[OffsetAt(cells, i)..OffsetAt(cells, i + 1)] == Text(cells[i])
  {
    assert cells[..i + 1] == cells[..i] + [cells[i]];
    ConcatMapSnoc(cells[..i], cells[i], TextOf());
    ConcatMapConcat(cells[..i + 1], cells[i + 1..], TextOf());
    assert cells == cells[..i + 1] + cells[i + 1..];
    MiddleSlice(TextBytes(cells[..i]), Text(cells[i]), TextBytes(cells[i + 1..]));
  }

  lemma MiddleSlice(a: Bytes, b: Bytes, c: Bytes)
    ensures (a + b + c)[|a|..|a + b|] == b
  {
  }

  lemma OffsetsMonotone(cells: seq<Datum>, i: nat, j: nat)
    requires i <= j <= |cells|
    ensures OffsetAt(cells, i) <= OffsetAt(cells, j) <= |TextBytes(cells)|
  {
    assert cells[..j] == cells[..i] + cells[i..j];
    ConcatMapConcat(cells[..i], cells[i..j], TextOf());
    assert cells == cells[..j] + cells[j..];
    ConcatMapConcat(cells[..j], cells[j..], TextOf());
  }

  // ----- the writers of the images -----

  method SerializeFixedWidth(cells: seq<Datum>) returns (bytes: Bytes)
    ensures bytes == FixedBytes(cells)
  {
    bytes := [];
    for i := 0 to |cells|
      invariant bytes == FixedBytes(cells[..i])
    {
      assert cells[..i + 1] == cells[..i] + [cells[i]];
      ConcatMapSnoc(cells[..i], cells[i], RawBytes());
      bytes := WriteU32(bytes, Raw(cells[i]));
    }
    assert cells[..|cells|] == cells;
  }

  method SerializeVarchar(cells: seq<Datum>) returns (offsets: Bytes, data: Bytes)
    ensures offsets == OffsetBytes(cells) && data == TextBytes(cells)
  {
    data := [];
    var running: U32 := 0;
    offsets := WriteU32([], running);
    PlusEmpty(EncodeU32(0));
    for i := 0 to |cells|
      invariant data == TextBytes(cells[..i]) && offsets == OffsetBytes(cells[..i]) && running == |data| % TWO32
    {
      assert cells[..i + 1][..i] == cells[..i];
      assert cells[..i + 1] == cells[..i] + [cells[i]];
      ConcatMapSnoc(cells[..i], cells[i], TextOf());
      ModuloSum(|data|, |Text(cells[i])|);
      data := data + Text(cells[i]);
      running := (running + |Text(cells[i])| % TWO32) % TWO32;
      offsets := WriteU32(offsets, running);
    }
    assert cells[..|cells|] == cells;
  }

  lemma ModuloSum(a: nat, b: nat)
    ensures (a % TWO32 + b % TWO32) % TWO32 == (a + b) % TWO32
  {
  }

  // ----- the validity bitmap region -----

  /** Bit `r` of column `c` in a region of `stride` bytes per column. */
  predicate BitOf(bytes: Bytes, stride: nat, c: nat, r: nat) {
    var at := c * stride + r / BITS_PER_BYTE;
    at < |bytes| && Bit(bytes[at], r % BITS_PER_BYTE)
  }

  /** The region tells exactly which cells are not NULL. */
  ghost predicate BitsAre(bytes: Bytes, columns: seq<Column>, rows: nat) {
    && |bytes| == |columns| * ByteCount(rows)
    && forall c: nat, r: nat :: c < |columns| && r < rows && r < |columns[c].cells| ==>
         BitOf(bytes, ByteCount(rows), c, r) == (columns[c].cells[r] != Null)
  }

  /** Positions in the region are distinct and inside it. */
  lemma RegionIndex(c: nat, n: nat, x: nat, stride: nat)
    requires c < n && x < stride
    ensures c * stride + x < n * stride
  {
    MulMono(c + 1, n, stride);
    Distribute(1, c, 1, stride);
  }

  lemma RegionDistinct(c: nat, x: nat, d: nat, y: nat, stride: nat)
    requires x < stride && y < stride && c * stride + x == d * stride + y
    ensures c == d && x == y
  {
    QuotientIs(c * stride + x, stride, c, x);
    QuotientIs(c * stride + x, stride, d, y);
  }

  lemma RowByte(r: nat, rows: nat)
    requires r < rows
    ensures r / BITS_PER_BYTE < ByteCount(rows)
  {
  }

  /** Cell `q` of column `d` comes before cell `r` of column `c`. */
  predicate Before(d: nat, q: nat, c: nat, r: nat) { d < c || (d == c && q < r) }

  /** The bits before row `r` of column `c` are in place; the rest are clear. */
  ghost predicate BitsUpTo(bytes: Bytes, columns: seq<Column>, rows: nat, c: nat, r: nat) {
    && |bytes| == |columns| * ByteCount(rows)
    && forall d: nat, q: nat :: d < |columns| && q < rows && q < |columns[d].cells| ==>
         BitOf(bytes, ByteCount(rows), d, q) == (Before(d, q, c, r) && columns[d].cells[q] != Null)
  }

  /** Setting one bit of the region changes that bit only. */
  lemma SetOneBit(bytes: Bytes, n: nat, rows: nat, c: nat, r: nat, d: nat, q: nat)
    requires |bytes| == n * ByteCount(rows) && c < n && r < rows && d < n && q < rows
    ensures c * ByteCount(rows) + r / BITS_PER_BYTE < |bytes|
    ensures var at := c * ByteCount(rows) + r / BITS_PER_BYTE;
      BitOf(bytes[at := SetBit(bytes[at], r % BITS_PER_BYTE)], ByteCount(rows), d, q)
        == ((d == c && q == r) || BitOf(bytes, ByteCount(rows), d, q))
  {
    var stride := ByteCount(rows);
    var x, y := r / BITS_PER_BYTE, q / BITS_PER_BYTE;
    RowByte(r, rows);
    RowByte(q, rows);
    RegionIndex(c, n, x, stride);
    RegionIndex(d, n, y, stride);
    var at, here := c * stride + x, d * stride + y;
    SetBitBits(bytes[at], r % BITS_PER_BYTE, q % BITS_PER_BYTE);
    if here == at { RegionDistinct(c, x, d, y, stride); }
  }

  lemma BitStep(bytes: Bytes, columns: seq<Column>, rows: nat, c: nat, r: nat)
    requires BitsUpTo(bytes, columns, rows, c, r) && c < |columns| && r < rows && r < |columns[c].cells|
    ensures c * ByteCount(rows) + r / BITS_PER_BYTE < |bytes|
    ensures var at := c * ByteCount(rows) + r / BITS_PER_BYTE;
      BitsUpTo(if columns[c].cells[r] != Null then bytes[at := SetBit(bytes[at], r % BITS_PER_BYTE)] else bytes,
               columns, rows, c, r + 1)
  {
    var at := c * ByteCount(rows) + r / BITS_PER_BYTE;
    SetOneBit(bytes, |columns|, rows, c, r, c, r);
    if columns[c].cells[r] != Null {
      var bytes' := bytes[at := SetBit(bytes[at], r % BITS_PER_BYTE)];
      forall d: nat, q: nat | d < |columns| && q < rows && q < |columns[d].cells|
        ensures BitOf(bytes', ByteCount(rows), d, q) == (Before(d, q, c, r + 1) && columns[d].cells[q] != Null)
      {
        SetOneBit(bytes, |columns|, rows, c, r, d, q);
        NextCell(d, q, c, r);
      }
    }
  }

  lemma NextCell(d: nat, q: nat, c: nat, r: nat)
    ensures Before(d, q, c, r + 1) <==> Before(d, q, c, r) || (d == c && q == r)
  {
  }

  lemma ClearRegion(columns: seq<Column>, rows: nat)
    ensures BitsUpTo(Zeros(|columns| * ByteCount(rows)), columns, rows, 0, 0)
  {
    var bytes := Zeros(|columns| * ByteCount(rows));
    forall d: nat, q: nat | d < |columns| && q < rows && q < |columns[d].cells|
      ensures !BitOf(bytes, ByteCount(rows), d, q)
    {
      AllOnes(q % BITS_PER_BYTE);
    }
  }

  lemma NextColumn(bytes: Bytes, columns: seq<Column>, rows: nat, c: nat)
    requires BitsUpTo(bytes, columns, rows, c, rows)
    ensures BitsUpTo(bytes, columns, rows, c + 1, 0)
  {
  }

  lemma BitsDone(bytes: Bytes, columns: seq<Column>, rows: nat)
    requires BitsUpTo(bytes, columns, rows, |columns|, 0)
    ensures BitsAre(bytes, columns, rows)
  {
  }

  method BuildValidityBitmapBytes(columns: seq<Column>, rows: nat) returns (bytes: Bytes)
    requires ColumnsValid(columns, rows)
    ensures BitsAre(bytes, columns, rows)
  {
    var stride := (rows + 7) / 8;
    bytes := Zeros(|columns| * stride);
    ClearRegion(columns, rows);
    for c := 0 to |columns|
      invariant BitsUpTo(bytes, columns, rows, c, 0)
    {
      for r := 0 to rows
        invariant BitsUpTo(bytes, columns, rows, c, r)
      {
        BitStep(bytes, columns, rows, c, r);
        if columns[c].cells[r] != Null {
          var at := c * stride + r / 8;
          bytes := bytes[at := SetBit(bytes[at], r % 8)];
        }
      }
      NextColumn(bytes, columns, rows, c);
    }
    BitsDone(bytes, columns, rows);
  }

  // ----- regions of pages -----

  /** What each page holds, whoever is asked for it. */
  type Pages = nat -> Bytes

  function At(pages: Pages, p: nat): Bytes { pages(p) }

  function PagesFor(n: nat): nat { (n + PAGE_SIZE - 1) / PAGE_SIZE }

  function PaddedTo(bytes: Bytes): (p: Bytes)
    ensures |p| == PagesFor(|bytes|) * PAGE_SIZE && PageCount(p) == PagesFor(|bytes|)
  {
    bytes + Zeros(PagesFor(|bytes|) * PAGE_SIZE - |bytes|)
  }

  /** The range holds the bytes, padded to whole pages. */
  ghost predicate Holds(pages: Pages, r: PageRange, bytes: Bytes) {
    && r.count == PagesFor(|bytes|)
    && forall p: nat :: r.start <= p < r.start + r.count ==> At(pages, p) == PageOf(PaddedTo(bytes), p - r.start)
  }

  /** The range starts at `lo` or later and ends before `hi`. */
  predicate Within(r: PageRange, lo: nat, hi: nat) { lo <= r.start && r.start + r.count < hi }

  function NullsIn(cells: seq<Datum>): nat { |Filter(cells, IsNullCell())| }

  /** A column's footer entry says where its bytes are, how many NULLs it has
      and what its zone is. */
  ghost predicate ColumnStored(pages: Pages, e: ColumnEntry, col: Column, lo: nat, hi: nat) {
    && ZoneOfEntry(e) == ZoneOf(col.ty, col.cells)
    && e.nullCount == NullsIn(col.cells) % TWO32
    && match e
       case IntEntry(r, _, _) => Within(r, lo, hi) && Holds(pages, r, FixedBytes(col.cells))
       case FloatEntry(r, _, _) => Within(r, lo, hi) && Holds(pages, r, FixedBytes(col.cells))
       case StrEntry(o, d, _, _) =>
         && Within(o, lo, hi) && Holds(pages, o, OffsetBytes(col.cells))
         && Within(d, lo, hi) && Holds(pages, d, TextBytes(col.cells))
  }

  /** A row group, stored in the pages from `lo` up to `hi`; `bits` are its bitmap bytes. */
  datatype Content = Content(columns: seq<Column>, rows: nat, bits: Bytes)

  ghost predicate GroupStored(pages: Pages, g: RowGroup, c: Content, lo: nat, hi: nat) {
    && 1 <= lo && g.rowCount == c.rows && |g.columns| == |c.columns| && ColumnsValid(c.columns, c.rows)
    && (forall k :: 0 <= k < |c.columns| ==> ColumnStored(pages, g.columns[k], c.columns[k], lo, hi))
    && BitsAre(c.bits, c.columns, c.rows)
    && lo <= g.bitmap.start && g.bitmap.start + g.bitmap.count == hi && Holds(pages, g.bitmap, c.bits)
  }

  /** Only the pages of the group matter. */
  ghost predicate SamePages(a: Pages, b: Pages, lo: nat, hi: nat) {
    forall p: nat :: lo <= p < hi ==> At(a, p) == At(b, p)
  }

  lemma HoldsSame(a: Pages, b: Pages, r: PageRange, bytes: Bytes, lo: nat, hi: nat)
    requires Holds(a, r, bytes) && SamePages(a, b, lo, hi) && lo <= r.start && r.start + r.count <= hi
    ensures Holds(b, r, bytes)
  {
  }

  lemma ColumnSame(a: Pages, b: Pages, e: ColumnEntry, col: Column, lo: nat, hi: nat, hi': nat)
    requires ColumnStored(a, e, col, lo, hi) && hi <= hi' && SamePages(a, b, lo, hi - 1)
    ensures ColumnStored(b, e, col, lo, hi')
  {
    match e
    case IntEntry(r, _, _) => HoldsSame(a, b, r, FixedBytes(col.cells), lo, hi - 1);
    case FloatEntry(r, _, _) => HoldsSame(a, b, r, FixedBytes(col.cells), lo, hi - 1);
    case StrEntry(o, d, _, _) =>
      HoldsSame(a, b, o, OffsetBytes(col.cells), lo, hi - 1);
      HoldsSame(a, b, d, TextBytes(col.cells), lo, hi - 1);
  }

  lemma GroupSame(a: Pages, b: Pages, g: RowGroup, c: Content, lo: nat, hi: nat)
    requires GroupStored(a, g, c, lo, hi) && SamePages(a, b, lo, hi)
    ensures GroupStored(b, g, c, lo, hi)
  {
    forall k | 0 <= k < |c.columns| ensures ColumnStored(b, g.columns[k], c.columns[k], lo, hi) {
      ColumnSame(a, b, g.columns[k], c.columns[k], lo, hi, hi);
    }
    HoldsSame(a, b, g.bitmap, c.bits, lo, hi);
  }

  // ----- pages of the file -----

  function FilePage(file: Bytes, p: nat): Bytes { if (p + 1) * PAGE_SIZE <= |file| then PageAt(file, p) else [] }

  function FilePages(file: Bytes): Pages { (p: nat) => FilePage(file, p) }

  /** The pages handed out so far are in the later file as they were. */
  ghost predicate Kept(d: DiskState, d': DiskState) {
    && d.nextFree <= d'.nextFree && |d.file| <= |d'.file|
    && forall p :: 1 <= p < d.nextFree && (p + 1) * PAGE_SIZE <= |d.file| ==>
      FilePage(d'.file, p) == FilePage(d.file, p)
  }

  lemma KeptTransitive(a: DiskState, b: DiskState, c: DiskState)
    requires Kept(a, b) && Kept(b, c)
    ensures Kept(a, c)
  {
    forall p | 1 <= p < a.nextFree && (p + 1) * PAGE_SIZE <= |a.file|
      ensures FilePage(c.file, p) == FilePage(a.file, p)
    {
      assert FilePage(b.file, p) == FilePage(a.file, p);
    }
  }

  lemma KeptSame(d: DiskState, d': DiskState, lo: nat, hi: nat)
    requires Kept(d, d') && 1 <= lo && hi <= d.nextFree && hi * PAGE_SIZE <= |d.file|
    ensures SamePages(FilePages(d.file), FilePages(d'.file), lo, hi)
  {
    forall p | lo <= p < hi ensures At(FilePages(d.file), p) == At(FilePages(d'.file), p) {
      assert (p + 1) * PAGE_SIZE <= hi * PAGE_SIZE;
      assert FilePage(d'.file, p) == FilePage(d.file, p);
    }
  }
}
