/** Reading a stored row group back, cell by cell: where the scan looks for a
    value and why it finds the one that was written. */
module ScanCells {
  import opened Types
  import opened ByteIO
  import opened Footer
  import opened Disk
  import opened Bitmap
  import opened Chunks
  import opened Layout

  // ----- whole regions -----

  /** `count` pages from `start` on, one after the other. */
  function RegionBytes(pages: Pages, start: nat, count: nat): Bytes {
    if count == 0 then [] else RegionBytes(pages, start, count - 1) + At(pages, start + count - 1)
  }

  ghost predicate WholePages(pages: Pages, start: nat, count: nat) {
    forall p: nat :: start <= p < start + count ==> |At(pages, p)| == PAGE_SIZE
  }

  lemma {:induction false} RegionByte(pages: Pages, start: nat, count: nat, k: nat)
    requires WholePages(pages, start, count) && k < count
    ensures |RegionBytes(pages, start, count)| == count * PAGE_SIZE
    ensures RegionBytes(pages, start, count)[k * PAGE_SIZE..(k + 1) * PAGE_SIZE] == At(pages, start + k)
  {
    if count == 1 {
      assert RegionBytes(pages, start, 0) == [];
      assert k == 0 && At(pages, start)[0..PAGE_SIZE] == At(pages, start);
    } else {
      RegionByte(pages, start, count - 1, if k < count - 1 then k else 0);
      var before, last := RegionBytes(pages, start, count - 1), At(pages, start + count - 1);
      if k < count - 1 {
        assert (before + last)[k * PAGE_SIZE..(k + 1) * PAGE_SIZE] == before[k * PAGE_SIZE..(k + 1) * PAGE_SIZE];
      } else {
        assert (before + last)[|before|..|before| + |last|] == last;
      }
    }
  }

  lemma {:induction false} RegionLength(pages: Pages, start: nat, count: nat)
    requires WholePages(pages, start, count)
    ensures |RegionBytes(pages, start, count)| == count * PAGE_SIZE
  {
    if count > 0 { RegionByte(pages, start, count, 0); }
  }

  lemma PageInside(b: Bytes, k: nat, j: nat)
    requires (k + 1) * PAGE_SIZE <= |b| && j < PAGE_SIZE
    ensures b[k * PAGE_SIZE..(k + 1) * PAGE_SIZE][j] == b[k * PAGE_SIZE + j]
  {
  }

  lemma RegionShowsAt(pages: Pages, r: PageRange, data: Bytes, a: nat, count: nat, k: nat, j: nat)
    requires Holds(pages, r, data) && WholePages(pages, r.start + a, count)
    requires a <= k < a + count && k < r.count && j < PAGE_SIZE && k * PAGE_SIZE + j < |data|
    ensures |RegionBytes(pages, r.start + a, count)| == count * PAGE_SIZE
    ensures RegionBytes(pages, r.start + a, count)[(k - a) * PAGE_SIZE + j] == data[k * PAGE_SIZE + j]
  {
    RegionByte(pages, r.start + a, count, k - a);
    PageInside(RegionBytes(pages, r.start + a, count), k - a, j);
    PageInside(PaddedTo(data), k, j);
    assert At(pages, r.start + k) == PageOf(PaddedTo(data), k);
  }

  /** The byte a region of pages shows at position `x` of the data written there. */
  lemma RegionShows(pages: Pages, r: PageRange, data: Bytes, a: nat, count: nat, x: nat)
    requires Holds(pages, r, data) && WholePages(pages, r.start + a, count)
    requires x < |data| && a * PAGE_SIZE <= x < (a + count) * PAGE_SIZE
    ensures |RegionBytes(pages, r.start + a, count)| == count * PAGE_SIZE
    ensures RegionBytes(pages, r.start + a, count)[x - a * PAGE_SIZE] == data[x]
  {
    RegionShowsAt(pages, r, data, a, count, x / PAGE_SIZE, x % PAGE_SIZE);
  }

  lemma HeldPagesWhole(pages: Pages, r: PageRange, data: Bytes)
    requires Holds(pages, r, data)
    ensures WholePages(pages, r.start, r.count)
  {
  }

  /** Reading a whole range gives the bytes and their padding. */
  lemma WholeRegion(pages: Pages, r: PageRange, data: Bytes)
    requires Holds(pages, r, data)
    ensures |RegionBytes(pages, r.start, r.count)| >= |data|
    ensures RegionBytes(pages, r.start, r.count)[..|data|] == data
  {
    HeldPagesWhole(pages, r, data);
    RegionLength(pages, r.start, r.count);
    forall x | 0 <= x < |data| ensures RegionBytes(pages, r.start, r.count)[x] == data[x] {
      RegionShows(pages, r, data, 0, r.count, x);
    }
  }

  // ----- fixed-width cells -----

  function OfRaw(ty: TypeId, u: U32): Datum { if ty == Integer then IntD(OfU32(u)) else FloatD(u) }

  lemma RawRoundTrip(ty: TypeId, d: Datum)
    requires HasType(d, ty) && ty != Varchar && d != Null
    ensures OfRaw(ty, Raw(d)) == d
  {
  }

  function WordAt(b: Bytes, i: nat): U32
    requires 4 * i + 4 <= |b|
  {
    U32At(b[4 * i..4 * i + 4])
  }

  lemma WordIs(b: Bytes, i: nat, u: U32)
    requires 4 * i + 4 <= |b| && b[4 * i..4 * i + 4] == EncodeU32(u)
    ensures WordAt(b, i) == u
  {
    U32Digits(u);
  }

  lemma SliceOfSlice(b: Bytes, lo: nat, hi: nat, i: nat)
    requires lo <= hi <= |b| && lo + i + 4 <= hi
    ensures b[lo..hi][i..i + 4] == b[lo + i..lo + i + 4]
  {
    var word := [b[lo + i], b[lo + i + 1], b[lo + i + 2], b[lo + i + 3]];
    assert b[lo..hi][i..i + 4] == word && b[lo + i..lo + i + 4] == word;
  }

  lemma SliceOfPrefix(a: Bytes, b: Bytes, i: nat)
    requires i + 4 <= |a|
    ensures (a + b)[i..i + 4] == a[i..i + 4]
  {
  }

  lemma PrefixWord(region: Bytes, bytes: Bytes, i: nat)
    requires |bytes| <= |region| && region[..|bytes|] == bytes && i + 4 <= |bytes|
    ensures region[i..i + 4] == bytes[i..i + 4]
  {
    SliceOfSlice(region, 0, |bytes|, i);
  }

  /** 1024 values of four bytes fill a page, so value `i` of vector `v` lies at
      `i` on page `v` of the range. */
  lemma FixedValue(pages: Pages, r: PageRange, cells: seq<Datum>, v: nat, i: nat)
    requires Holds(pages, r, FixedBytes(cells)) && i < VECTOR_SIZE && v * VECTOR_SIZE + i < |cells|
    ensures v < r.count && |At(pages, r.start + v)| == PAGE_SIZE
    ensures WordAt(At(pages, r.start + v), i) == Raw(cells[v * VECTOR_SIZE + i])
  {
    var n := v * VECTOR_SIZE + i;
    var bytes := FixedBytes(cells);
    FixedBytesAt(cells, n);
    SliceOfSlice(PaddedTo(bytes), v * PAGE_SIZE, (v + 1) * PAGE_SIZE, 4 * i);
    SliceOfPrefix(bytes, Zeros(PagesFor(|bytes|) * PAGE_SIZE - |bytes|), 4 * n);
    WordIs(At(pages, r.start + v), i, Raw(cells[n]));
  }

  // ----- validity -----

  lemma PrefixBit(bits: Bytes, region: Bytes, stride: nat, c: nat, r: nat)
    requires |bits| <= |region| && region[..|bits|] == bits && c * stride + r / BITS_PER_BYTE < |bits|
    ensures BitOf(region, stride, c, r) == BitOf(bits, stride, c, r)
  {
    var at := c * stride + r / BITS_PER_BYTE;
    assert region[..|bits|][at] == region[at];
  }

  /** The bit the scan tests tells whether the cell is NULL. */
  lemma ValidityRead(region: Bytes, c: Content, k: nat, r: nat)
    requires BitsAre(c.bits, c.columns, c.rows) && ColumnsValid(c.columns, c.rows) && k < |c.columns| && r < c.rows
    requires |c.bits| <= |region| && region[..|c.bits|] == c.bits
    ensures k * ByteCount(c.rows) + r / BITS_PER_BYTE < |c.bits|
    ensures BitOf(region, ByteCount(c.rows), k, r) == (c.columns[k].cells[r] != Null)
  {
    RowByte(r, c.rows);
    RegionIndex(k, |c.columns|, r / BITS_PER_BYTE, ByteCount(c.rows));
    PrefixBit(c.bits, region, ByteCount(c.rows), k, r);
    assert r < |c.columns[k].cells|;
  }

  // ----- strings -----

  lemma SmallModulo(n: nat)
    requires n < TWO32
    ensures n % TWO32 == n
  {
  }

  lemma OffsetWord(region: Bytes, bytes: Bytes, cells: seq<Datum>, i: nat)
    requires bytes == OffsetBytes(cells) && |bytes| <= |region| && region[..|bytes|] == bytes && i <= |cells|
    ensures 4 * i + 4 <= |region| && WordAt(region, i) == OffsetAt(cells, i) % TWO32
  {
    OffsetBytesAt(cells, i);
    PrefixWord(region, bytes, 4 * i);
    WordIs(region, i, OffsetAt(cells, i) % TWO32);
  }

  lemma OffsetRead(pages: Pages, r: PageRange, cells: seq<Datum>, i: nat)
    requires Holds(pages, r, OffsetBytes(cells)) && i <= |cells| && |TextBytes(cells)| < TWO32
    ensures 4 * i + 4 <= |RegionBytes(pages, r.start, r.count)|
    ensures WordAt(RegionBytes(pages, r.start, r.count), i) == OffsetAt(cells, i)
  {
    WholeRegion(pages, r, OffsetBytes(cells));
    OffsetWord(RegionBytes(pages, r.start, r.count), OffsetBytes(cells), cells, i);
    OffsetsMonotone(cells, i, |cells|);
    SmallModulo(OffsetAt(cells, i));
  }

  /** A string whose bytes lie in the fetched pages is read back exactly. */
  lemma TextRead(pages: Pages, r: PageRange, cells: seq<Datum>, a: nat, count: nat, i: nat)
    requires Holds(pages, r, TextBytes(cells)) && WholePages(pages, r.start + a, count) && i < |cells|
    requires a * PAGE_SIZE <= OffsetAt(cells, i) && OffsetAt(cells, i + 1) <= (a + count) * PAGE_SIZE
    ensures var scratch, base := RegionBytes(pages, r.start + a, count), a * PAGE_SIZE;
      && OffsetAt(cells, i) <= OffsetAt(cells, i + 1) && OffsetAt(cells, i + 1) - base <= |scratch|
      && scratch[OffsetAt(cells, i) - base..OffsetAt(cells, i + 1) - base] == Text(cells[i])
  {
    var scratch, base := RegionBytes(pages, r.start + a, count), a * PAGE_SIZE;
    var lo, hi := OffsetAt(cells, i), OffsetAt(cells, i + 1);
    TextAt(cells, i);
    RegionLength(pages, r.start + a, count);
    RegionText(pages, r, TextBytes(cells), a, count, lo, hi);
  }

  lemma RegionText(pages: Pages, r: PageRange, data: Bytes, a: nat, count: nat, lo: nat, hi: nat)
    requires Holds(pages, r, data) && WholePages(pages, r.start + a, count)
    requires a * PAGE_SIZE <= lo <= hi <= |data| && hi <= (a + count) * PAGE_SIZE
    ensures |RegionBytes(pages, r.start + a, count)| == count * PAGE_SIZE
    ensures RegionBytes(pages, r.start + a, count)[lo - a * PAGE_SIZE..hi - a * PAGE_SIZE] == data[lo..hi]
  {
    RegionLength(pages, r.start + a, count);
    var base := a * PAGE_SIZE;
    var read, text := RegionBytes(pages, r.start + a, count)[lo - base..hi - base], data[lo..hi];
    forall y | 0 <= y < hi - lo ensures read[y] == text[y] {
      RegionShows(pages, r, data, a, count, lo + y);
    }
    assert read == text;
  }
}
