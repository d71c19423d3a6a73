/** Where each field lies in the bytes of the file, and what number it holds. */
module Formats {
  import opened Seqs
  import opened Types
  import opened ByteIO
  import opened Orders
  import opened ZoneMaps
  import opened Bitmap
  import opened Chunks
  import opened Layout
  import Disk
  import opened Footer
  import Schema
  import Catalog

  /** The number that bytes make up, least significant byte first. */
  function Number(s: Bytes): nat { if s == [] then 0 else s[0] as int + 0x100 * Number(s[1..]) }

  /** `width` bytes from `at` on hold the number. */
  predicate Field(b: Bytes, at: nat, width: nat, value: int) {
    at + width <= |b| && Number(b[at..at + width]) == value
  }

  // ----- numbers -----

  lemma Number4(s: Bytes)
    requires |s| == 4
    ensures Number(s) == s[0] as int + 0x100 * (s[1] as int + 0x100 * (s[2] as int + 0x100 * (s[3] as int)))
  {
    var t, u, v := s[1..], s[2..], s[3..];
    assert t[1..] == u && u[1..] == v && v[1..] == [];
    assert Number(v) == s[3] as int + 0x100 * Number([]);
    assert Number(u) == s[2] as int + 0x100 * Number(v);
    assert Number(t) == s[1] as int + 0x100 * Number(u);
  }

  /** A 32-bit number is stored least significant byte first. */
  lemma U32Number(u: U32)
    ensures Number(EncodeU32(u)) == u
  {
    Number4(EncodeU32(u));
    U32Digits(u);
  }

  lemma {:induction false} NumberConcat(a: Bytes, b: Bytes)
    requires |a| == 4
    ensures Number(a + b) == Number(a) + TWO32 * Number(b)
  {
    var s := a + b;
    Number4(a);
    assert s[1..][1..] == s[2..] && s[2..][1..] == s[3..] && s[3..][1..] == b;
    assert Number(s[3..]) == s[3] as int + 0x100 * Number(b);
    assert Number(s[2..]) == s[2] as int + 0x100 * Number(s[3..]);
    assert Number(s[1..]) == s[1] as int + 0x100 * Number(s[2..]);
  }

  lemma U64Number(u: U64)
    ensures Number(EncodeU64(u)) == u
  {
    U32Number(u % TWO32);
    U32Number(u / TWO32);
    NumberConcat(EncodeU32(u % TWO32), EncodeU32(u / TWO32));
  }

  lemma SliceInside(a: Bytes, b: Bytes, c: Bytes)
    ensures (a + b + c)[|a|..|a| + |b|] == b
  {
  }

  lemma U32Inside(a: Bytes, u: U32, c: Bytes)
    ensures Field(a + EncodeU32(u) + c, |a|, 4, u)
  {
    U32Number(u);
    SliceInside(a, EncodeU32(u), c);
  }

  lemma U64Inside(a: Bytes, u: U64, c: Bytes)
    ensures Field(a + EncodeU64(u) + c, |a|, 8, u)
  {
    U64Number(u);
    SliceInside(a, EncodeU64(u), c);
  }

  /** An INTEGER is stored in two's complement. */
  lemma TwosComplement(i: Int32)
    ensures ToU32(i) == i % TWO32 && OfU32(ToU32(i)) == i
  {
  }

  // ----- the header -----

  lemma HeaderLayout(metaOffset: U64, nextFree: U32)
    ensures var b := Disk.HeaderBytes(metaOffset, nextFree);
      && |b| == 20 && b[..8] == [0x47, 0x49, 0x53, 0x54, 0x44, 0x42, 0x30, 0x31]
      && Field(b, 8, 8, metaOffset) && Field(b, 16, 4, nextFree)
  {
    var b := Disk.HeaderBytes(metaOffset, nextFree);
    U64Inside(Disk.MAGIC, metaOffset, EncodeU32(nextFree));
    U32Inside(Disk.MAGIC + EncodeU64(metaOffset), nextFree, []);
    PlusEmpty(b);
  }

  // ----- the footer -----

  lemma RangeInside(a: Bytes, r: PageRange, c: Bytes)
    ensures Field(a + EncodeRange(r) + c, |a|, 4, r.start) && Field(a + EncodeRange(r) + c, |a| + 4, 4, r.count)
    ensures |EncodeRange(r)| == 8
  {
    var s, n := EncodeU32(r.start), EncodeU32(r.count);
    U32Inside(a, r.start, n + c);
    U32Inside(a + s, r.count, c);
    assert a + EncodeRange(r) + c == a + s + (n + c) == (a + s) + n + c;
  }

  /** Page range, null count and flag, after a tag and whatever else. */
  lemma FixedFields<T>(a: Bytes, pages: PageRange, nulls: U32, z: Zone<T>, enc: T -> Bytes)
    ensures var b := a + EncodeFixed(pages, nulls, z, enc);
      && |b| == |a| + 12 + |EncodeZone(z, enc)| && b[|a| + 12..] == EncodeZone(z, enc)
      && Field(b, |a|, 4, pages.start) && Field(b, |a| + 4, 4, pages.count) && Field(b, |a| + 8, 4, nulls)
  {
    var r, n, zone := EncodeRange(pages), EncodeU32(nulls), EncodeZone(z, enc);
    RangeInside(a, pages, n + zone);
    U32Inside(a + r, nulls, zone);
    assert a + EncodeFixed(pages, nulls, z, enc) == a + r + (n + zone) == (a + r) + n + zone;
  }

  /** A flag byte, then the two ends if there are any. */
  lemma NumberZone<T>(z: Zone<T>, enc: T -> Bytes, lo: U32, hi: U32)
    requires enc(z.min) == EncodeU32(lo) && enc(z.max) == EncodeU32(hi)
    ensures var b := EncodeZone(z, enc);
      && (z.has ==> |b| == 9 && b[0] == 1 && Field(b, 1, 4, lo) && Field(b, 5, 4, hi))
      && (!z.has ==> b == [0])
  {
    if z.has {
      U32Inside([1], lo, EncodeU32(hi));
      U32Inside([1] + EncodeU32(lo), hi, []);
      PlusEmpty(EncodeZone(z, enc));
    }
  }

  lemma Shifted(a: Bytes, b: Bytes, at: nat, width: nat, value: int)
    requires Field(b, at, width, value)
    ensures Field(a + b, |a| + at, width, value)
  {
    assert (a + b)[|a| + at..|a| + at + width] == b[at..at + width];
  }

  /** The ends from byte 14 on, when the flag in byte 13 says that there are any. */
  predicate EndsLie(b: Bytes, has: bool, lo: int, hi: int) {
    if has then |b| == 22 && b[13] == 1 && Field(b, 14, 4, lo) && Field(b, 18, 4, hi) else |b| == 14 && b[13] == 0
  }

  lemma EndsAt(b: Bytes, zone: Bytes, has: bool, lo: U32, hi: U32)
    requires |b| >= 13 && b[13..] == zone
    requires if has then |zone| == 9 && zone[0] == 1 && Field(zone, 1, 4, lo) && Field(zone, 5, 4, hi) else zone == [0]
    ensures EndsLie(b, has, lo, hi)
  {
    assert b == b[..13] + zone;
    if has {
      Shifted(b[..13], zone, 1, 4, lo);
      Shifted(b[..13], zone, 5, 4, hi);
    }
  }

  /** Tag, page range, null count, flag and ends of an INTEGER column. */
  lemma IntegerLayout(pages: PageRange, nulls: U32, z: Zone<Int32>)
    ensures var b := EncodeColumn(IntEntry(pages, nulls, z));
      && EndsLie(b, z.has, z.min % TWO32, z.max % TWO32) && b[0] == 0
      && Field(b, 1, 4, pages.start) && Field(b, 5, 4, pages.count) && Field(b, 9, 4, nulls)
  {
    FixedFields([TAG_INTEGER], pages, nulls, z, IntBytes());
    NumberZone(z, IntBytes(), ToU32(z.min), ToU32(z.max));
    EndsAt(EncodeColumn(IntEntry(pages, nulls, z)), EncodeZone(z, IntBytes()), z.has, ToU32(z.min), ToU32(z.max));
    TwosComplement(z.min);
    TwosComplement(z.max);
  }

  lemma FloatLayout(pages: PageRange, nulls: U32, z: Zone<Float32>)
    ensures var b := EncodeColumn(FloatEntry(pages, nulls, z));
      && EndsLie(b, z.has, z.min, z.max) && b[0] == 1
      && Field(b, 1, 4, pages.start) && Field(b, 5, 4, pages.count) && Field(b, 9, 4, nulls)
  {
    FixedFields([TAG_FLOAT], pages, nulls, z, FloatBytes());
    NumberZone(z, FloatBytes(), z.min, z.max);
    EndsAt(EncodeColumn(FloatEntry(pages, nulls, z)), EncodeZone(z, FloatBytes()), z.has, z.min, z.max);
  }

  /** A length byte and eight bytes, those after the prefix zero. */
  predicate PrefixLies(b: Bytes, at: nat, s: Str) {
    && at + 9 <= |b| && b[at] == |s| % 256
    && forall i :: 0 <= i < 8 ==> b[at + 1 + i] == if i < |s| then s[i] else 0
  }

  lemma PrefixZone(z: Zone<Str>)
    ensures var b := EncodeZone(z, StrBytes());
      if z.has then |b| == 19 && b[0] == 1 && PrefixLies(b, 1, z.min) && PrefixLies(b, 10, z.max) else b == [0]
  {
    if z.has { assert |EncodePrefix(z.min)| == |EncodePrefix(z.max)| == 9; }
  }

  lemma PrefixMoved(a: Bytes, b: Bytes, at: nat, s: Str)
    requires PrefixLies(b, at, s)
    ensures PrefixLies(a + b, |a| + at, s)
  {
    forall i | 0 <= i < 8 ensures (a + b)[|a| + at + 1 + i] == if i < |s| then s[i] else 0 {
      assert (a + b)[|a| + at + 1 + i] == b[at + 1 + i];
    }
  }

  /** Tag, both page ranges, null count, flag and prefixes of a VARCHAR column. */
  lemma VarcharLayout(offsets: PageRange, data: PageRange, nulls: U32, z: Zone<Str>)
    ensures var b := EncodeColumn(StrEntry(offsets, data, nulls, z));
      && |b| == (if z.has then 40 else 22) && b[0] == 2
      && Field(b, 1, 4, offsets.start) && Field(b, 5, 4, offsets.count)
      && Field(b, 9, 4, data.start) && Field(b, 13, 4, data.count) && Field(b, 17, 4, nulls)
      && b[21] == (if z.has then 1 else 0)
      && (z.has ==> PrefixLies(b, 22, z.min) && PrefixLies(b, 31, z.max))
  {
    var b, fixed := EncodeColumn(StrEntry(offsets, data, nulls, z)), EncodeFixed(data, nulls, z, StrBytes());
    PlusAssoc([TAG_VARCHAR], EncodeRange(offsets), fixed);
    RangeInside([TAG_VARCHAR], offsets, fixed);
    FixedFields([TAG_VARCHAR] + EncodeRange(offsets), data, nulls, z, StrBytes());
    PrefixZone(z);
    VarcharEnds(b, EncodeZone(z, StrBytes()), z);
  }

  lemma PlusAssoc(a: Bytes, b: Bytes, c: Bytes)
    ensures a + (b + c) == a + b + c
  {
  }

  /** The flag and the prefixes, from byte 21 on. */
  lemma VarcharEnds(b: Bytes, zone: Bytes, z: Zone<Str>)
    requires |b| >= 21 && b[21..] == zone
    requires if z.has then |zone| == 19 && zone[0] == 1 && PrefixLies(zone, 1, z.min) && PrefixLies(zone, 10, z.max)
             else zone == [0]
    ensures |b| == (if z.has then 40 else 22) && b[21] == (if z.has then 1 else 0)
    ensures z.has ==> PrefixLies(b, 22, z.min) && PrefixLies(b, 31, z.max)
  {
    assert b == b[..21] + zone;
    if z.has {
      PrefixMoved(b[..21], zone, 1, z.min);
      PrefixMoved(b[..21], zone, 10, z.max);
    }
  }

  lemma GroupSlices(x: Bytes, y: Bytes, z: Bytes, w: Bytes, v: Bytes, rest: Bytes, b: Bytes)
    requires |x| == |y| == |z| == |w| == |v| == 4 && b == x + y + (z + w) + (v + rest)
    ensures |b| >= 20 && b[0..4] == x && b[4..8] == y && b[8..12] == z && b[12..16] == w && b[16..20] == v
    ensures b[20..] == rest
  {
  }

  lemma GroupFields(id: U32, rows: U32, range: PageRange, n: nat, code: Bytes, rest: Bytes, b: Bytes)
    requires |code| == 4 && Number(code) == n
    requires b == EncodeU32(id) + EncodeU32(rows) + EncodeRange(range) + (code + rest)
    ensures |b| >= 20 && b[20..] == rest && Field(b, 0, 4, id) && Field(b, 4, 4, rows)
    ensures Field(b, 8, 4, range.start) && Field(b, 12, 4, range.count) && Field(b, 16, 4, n)
  {
    U32Number(id);
    U32Number(rows);
    U32Number(range.start);
    U32Number(range.count);
    GroupSlices(EncodeU32(id), EncodeU32(rows), EncodeU32(range.start), EncodeU32(range.count), code, rest, b);
  }

  /** A row group's header of twenty bytes, then its columns. */
  lemma RowGroupLayout(g: RowGroup)
    requires |g.columns| < TWO32
    ensures var b := EncodeRowGroup(g);
      && |b| >= 20 && b[20..] == ConcatMap(g.columns, ColumnBytes())
      && Field(b, 0, 4, g.tableId) && Field(b, 4, 4, g.rowCount)
      && Field(b, 8, 4, g.bitmap.start) && Field(b, 12, 4, g.bitmap.count) && Field(b, 16, 4, |g.columns|)
  {
    var code := CountCode(|g.columns|);
    GroupFields(g.tableId, g.rowCount, g.bitmap, |g.columns|, code, ConcatMap(g.columns, ColumnBytes()),
                EncodeRowGroup(g));
  }

  /** A count that fits is stored as it is. */
  lemma CountCode(n: nat) returns (code: Bytes)
    requires n < TWO32
    ensures code == EncodeU32(n % TWO32) && |code| == 4 && Number(code) == n
  {
    code := EncodeU32(n % TWO32);
    U32Number(n % TWO32);
  }

  lemma CodeFirst(code: Bytes, rest: Bytes, n: nat)
    requires |code| == 4 && Number(code) == n
    ensures Field(code + rest, 0, 4, n) && (code + rest)[4..] == rest
  {
    assert (code + rest)[0..4] == code;
  }

  /** The number of row groups, then one after the other. */
  lemma FooterLayout(groups: seq<RowGroup>)
    requires |groups| < TWO32
    ensures var b := EncodeFooter(groups); Field(b, 0, 4, |groups|) && b[4..] == ConcatMap(groups, GroupBytes())
  {
    var code := CountCode(|groups|);
    CodeFirst(code, ConcatMap(groups, GroupBytes()), |groups|);
  }

  // ----- the schema section -----

  lemma NameSlices(x: Bytes, name: Bytes, ty: Byte, y: Bytes, b: Bytes)
    requires |x| == |y| == 4 && b == x + name + [ty] + y
    ensures |b| == |name| + 9 && b[0..4] == x && b[4..4 + |name|] == name && b[4 + |name|] == ty
    ensures b[5 + |name|..9 + |name|] == y
  {
  }

  lemma ColumnDefLayout(c: Schema.ColumnDef)
    requires |c.name| < TWO32
    ensures var b, n := Schema.EncodeColumnDef(c), |c.name|;
      && |b| == n + 9 && Field(b, 0, 4, n) && b[4..4 + n] == c.name
      && b[4 + n] == (match c.ty case Integer => 0 case Float => 1 case Varchar => 2)
      && Field(b, 5 + n, 4, c.ordinal)
  {
    var code := CountCode(|c.name|);
    U32Number(c.ordinal);
    NameSlices(code, c.name, Schema.TypeByte(c.ty), EncodeU32(c.ordinal), Schema.EncodeColumnDef(c));
  }

  lemma TableSlices(x: Bytes, y: Bytes, name: Bytes, z: Bytes, rest: Bytes, b: Bytes)
    requires |x| == |y| == |z| == 4 && b == x + (y + name) + (z + rest)
    ensures |b| >= |name| + 12 && b[0..4] == x && b[4..8] == y && b[8..8 + |name|] == name
    ensures b[8 + |name|..12 + |name|] == z && b[12 + |name|..] == rest
  {
    assert b == (x + y + name) + z + rest && b == (x + y) + name + (z + rest);
    SliceInside(x + y, name, z + rest);
    SliceInside(x + y + name, z, rest);
    assert |x + y + name + z| == 12 + |name|;
  }

  lemma TableLayout(t: Schema.TableSchema)
    requires |t.name| < TWO32 && |t.columns| < TWO32
    ensures var b, n := Schema.EncodeTable(t), |t.name|;
      && |b| >= n + 12 && Field(b, 0, 4, t.id) && Field(b, 4, 4, n) && b[8..8 + n] == t.name
      && Field(b, 8 + n, 4, |t.columns|) && b[12 + n..] == ConcatMap(t.columns, Schema.DefBytes())
  {
    U32Number(t.id);
    var length := CountCode(|t.name|);
    var count := CountCode(|t.columns|);
    TableSlices(EncodeU32(t.id), length, t.name, count, ConcatMap(t.columns, Schema.DefBytes()), Schema.EncodeTable(t));
  }

  lemma TwoSlices(x: Bytes, y: Bytes, rest: Bytes, b: Bytes)
    requires |x| == |y| == 4 && b == x + (y + rest)
    ensures |b| >= 8 && b[0..4] == x && b[4..8] == y && b[8..] == rest
  {
  }

  lemma SchemaLayout(s: Schema.SchemaSection)
    requires |s.tables| < TWO32
    ensures var b := Schema.EncodeSchema(s);
      && |b| >= 8 && Field(b, 0, 4, s.nextId) && Field(b, 4, 4, |s.tables|)
      && b[8..] == ConcatMap(s.tables, Schema.TableBytes())
  {
    U32Number(s.nextId);
    var count := CountCode(|s.tables|);
    TwoSlices(EncodeU32(s.nextId), count, ConcatMap(s.tables, Schema.TableBytes()), Schema.EncodeSchema(s));
  }

  lemma SectionSlices(x: Bytes, section: Bytes, rest: Bytes, b: Bytes)
    requires |x| == 4 && b == x + section + rest
    ensures |b| >= 4 + |section| && b[0..4] == x && b[4..4 + |section|] == section && b[4 + |section|..] == rest
  {
  }

  /** The metadata blob: the length of the schema section, that section, the footer. */
  lemma BlobLayout(s: Schema.SchemaSection, groups: seq<RowGroup>)
    requires |Schema.EncodeSchema(s)| < TWO32
    ensures var b, n := Catalog.Combined(s, groups), |Schema.EncodeSchema(s)|;
      && |b| >= 4 + n && Field(b, 0, 4, n) && b[4..4 + n] == Schema.EncodeSchema(s) &&
        b[4 + n..] == EncodeFooter(groups)
  {
    var section, footer := Schema.EncodeSchema(s), EncodeFooter(groups);
    var length := CountCode(|section|);
    SectionSlices(length, section, footer, Catalog.Combined(s, groups));
  }

  // ----- validity bits -----

  lemma Powers()
    ensures Power2(0) == 1 && Power2(1) == 2 && Power2(2) == 4 && Power2(3) == 8
    ensures Power2(4) == 16 && Power2(5) == 32 && Power2(6) == 64 && Power2(7) == 128
  {
    assert Power2(3) == 2 * Power2(2) && Power2(5) == 2 * Power2(4) && Power2(7) == 2 * Power2(6);
  }

  /** Row `i` is bit `i % 8` of byte `i / 8`, counted from the least significant. */
  lemma RowIsBit(bytes: Bytes, i: nat)
    requires i / 8 < |bytes|
    ensures BitAt(bytes, i) <==> bytes[i / 8] / Power2(i % 8) % 2 == 1
  {
    Powers();
  }

  // ----- column images -----

  /** What the four bytes of a cell hold: the number, or zero for NULL. */
  function StoredNumber(d: Datum): int {
    match d
    case IntD(i) => i % TWO32
    case FloatD(f) => f
    case _ => 0
  }

  /** Cell `i` of a numeric column is the `i`-th group of four bytes. */
  lemma NumberImage(cells: seq<Datum>, i: nat)
    requires i < |cells|
    ensures Field(FixedBytes(cells), 4 * i, 4, StoredNumber(cells[i]))
  {
    FixedBytesAt(cells, i);
    U32Number(Raw(cells[i]));
    if cells[i].IntD? { TwosComplement(cells[i].i); }
  }

  function LengthUpTo(cells: seq<Datum>, n: nat): nat
    requires n <= |cells|
  {
    if n == 0 then 0 else LengthUpTo(cells, n - 1) + if cells[n - 1].StrD? then |cells[n - 1].s| else 0
  }

  lemma {:induction false} OffsetIsLength(cells: seq<Datum>, n: nat)
    requires n <= |cells|
    ensures OffsetAt(cells, n) == LengthUpTo(cells, n)
  {
    if n == 0 {
      assert cells[..0] == [];
    } else {
      OffsetIsLength(cells, n - 1);
      assert cells[..n] == cells[..n - 1] + [cells[n - 1]];
      ConcatMapSnoc(cells[..n - 1], cells[n - 1], TextOf());
    }
  }

  /** Offset `n` is the total length of the first `n` strings. */
  lemma OffsetImage(cells: seq<Datum>, n: nat)
    requires n <= |cells| && |TextBytes(cells)| < TWO32
    ensures Field(OffsetBytes(cells), 4 * n, 4, LengthUpTo(cells, n))
  {
    OffsetBytesAt(cells, n);
    OffsetIsLength(cells, n);
    OffsetsMonotone(cells, n, |cells|);
    var code := CountCode(LengthUpTo(cells, n));
  }

  /** Each string stands at its offset. */
  lemma TextImage(cells: seq<Datum>, n: nat)
    requires n < |cells| && cells[n].StrD?
    ensures var at := LengthUpTo(cells, n);
      at + |cells[n].s| <= |TextBytes(cells)| && TextBytes(cells)[at..at + |cells[n].s|] == cells[n].s
  {
    TextAt(cells, n);
    OffsetIsLength(cells, n);
    OffsetIsLength(cells, n + 1);
  }

  /** The validity region has a run of bytes for each column; in it the row's bit
      is set exactly when its cell is not NULL. */
  lemma ValidityImage(bytes: Bytes, columns: seq<Column>, rows: nat, c: nat, r: nat)
    requires BitsAre(bytes, columns, rows) && c < |columns| && r < rows && r < |columns[c].cells|
    ensures var at := c * ((rows + 7) / 8) + r / 8;
      at < |bytes| && (bytes[at] / Power2(r % 8) % 2 == 1 <==> columns[c].cells[r] != Null)
  {
    RowByte(r, rows);
    RegionIndex(c, |columns|, r / BITS_PER_BYTE, ByteCount(rows));
    assert BitOf(bytes, ByteCount(rows), c, r) == (columns[c].cells[r] != Null);
    Powers();
  }

  // ----- pages -----

  /** Page `p` is the 4096 bytes from `4096 * p` on; a write changes those of the
      pages written and, past the old end, leaves zeros in between. */
  lemma PagesLie(d: Disk.DiskState, p: nat, data: Bytes, i: nat)
    requires Disk.WritePages(d, p, data).Some?
    requires i < |Disk.WritePages(d, p, data).value.file|
    ensures var file := Disk.WritePages(d, p, data).value.file;
      file[i] == if 4096 * p <= i < 4096 * p + |data| then data[i - 4096 * p] else if i < |d.file| then d.file[i] else 0
  {
    var off, file := 4096 * p, Disk.Pwrite(d.file, 4096 * p, data);
    Disk.PwriteHere(d.file, off, data);
    if off <= i < off + |data| { assert file[off..off + |data|][i - off] == file[i]; }
  }

  lemma PagesRead(d: Disk.DiskState, p: nat, count: nat)
    ensures Disk.ReadPages(d, p, count).Some? <==> p > 0 && count > 0 && 4096 * (p + count) <= |d.file|
    ensures Disk.ReadPages(d, p, count).Some? ==>
      Disk.ReadPages(d, p, count).value == d.file[4096 * p..4096 * (p + count)]
  {
  }

  /** The next pages are handed out, and no pages only as a refusal. */
  lemma AllocationLies(d: Disk.DiskState, count: nat)
    requires Disk.InRange(d) && d.nextFree + count < TWO32
    ensures Disk.AllocatePages(d, count).Some? <==> count > 0
    ensures count > 0 ==>
      var (d', first) := Disk.AllocatePages(d, count).value;
      first == d.nextFree && d'.nextFree == d.nextFree + count && d'.metaOffset == d.metaOffset
  {
  }

  /** The metadata blob goes behind both the pages handed out and the end of the
      file, where the header then points, and ends the file. */
  lemma BlobLies(d: Disk.DiskState, blob: Bytes)
    requires Disk.HeaderOnDisk(d) && Disk.AppendOffset(d) < TWO64 && blob != []
    ensures var d' := Disk.WriteMetadataBlob(d, blob);
      var at := if 4096 * d.nextFree > |d.file| then 4096 * d.nextFree else |d.file|;
      d'.metaOffset == at && d'.nextFree == d.nextFree && |d'.file| == at + |blob| && d'.file[at..] == blob
  {
    Disk.BlobInPlace(d, blob);
    var d', at := Disk.WriteMetadataBlob(d, blob), Disk.AppendOffset(d);
    assert d'.file[at..] == d'.file[at..at + |blob|];
  }

  /** As few pages as hold the bytes. */
  lemma PagesNeeded(n: nat)
    ensures n <= 4096 * PagesFor(n) && (n > 0 ==> 4096 * (PagesFor(n) - 1) < n) && (n == 0 ==> PagesFor(n) == 0)
  {
  }

  // ----- what is refused -----

  /** A column whose type byte is none of the three is refused. */
  lemma UnknownTypeRefused(name: Bytes, b: Byte, rest: Bytes)
    requires |name| < TWO31 && b > 2
    ensures Schema.DecodeColumnDef(EncodeString(name) + ([b] + rest)).None?
  {
    StringRoundTrip(name, [b] + rest);
    U8RoundTrip(b, rest);
  }

  /** A file opens exactly when it has a whole header that starts with the magic
      number. */
  lemma OpensIff(file: Bytes)
    ensures Disk.Open(file).Some? <==>
      |file| >= 20 && file[..8] == [0x47, 0x49, 0x53, 0x54, 0x44, 0x42, 0x30, 0x31]
  {
    if |file| >= 20 { assert file[..20][..8] == file[..8]; }
  }
}
