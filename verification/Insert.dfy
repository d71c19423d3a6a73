/** The insert executor: rows are staged by column and written out as row
    groups of 10240 rows, straight to freshly allocated pages. */
module Insert {
  import opened Seqs
  import opened Types
  import opened ByteIO
  import opened LogicalPlan
  import opened ZoneMaps
  import opened Footer
  import opened Disk
  import opened Bitmap
  import opened Chunks
  import opened Layout

  /** Enough of a header to allocate pages; allocating writes the header out. */
  predicate Usable(d: DiskState) { InRange(d) && 1 <= d.nextFree && HEADER_SIZE <= |d.file| }

  // ----- one region -----

  lemma AllocateKeeps(d: DiskState, count: nat)
    requires Usable(d) && 0 < count && d.nextFree + count < TWO32
    ensures var d' := AllocatePages(d, count).value.0;
      HeaderOnDisk(d') && Kept(d, d') && |d'.file| == |d.file|
  {
    var d' := d.(nextFree := d.nextFree + count);
    PersistedHeader(d');
    forall p | 1 <= p < d.nextFree && (p + 1) * PAGE_SIZE <= |d.file|
      ensures FilePage(Persisted(d').file, p) == FilePage(d.file, p)
    {
      PersistedPage(d', p);
    }
  }

  lemma WriteKeeps(d: DiskState, start: nat, data: Bytes)
    requires HeaderOnDisk(d) && 1 <= start && data != [] && |data| % PAGE_SIZE == 0
    ensures var d' := WritePages(d, start, data).value;
      && HeaderOnDisk(d') && (start + PageCount(data)) * PAGE_SIZE <= |d'.file|
      && (forall p :: 1 <= p < start && (p + 1) * PAGE_SIZE <= |d.file| ==> FilePage(d'.file, p) == FilePage(d.file, p))
      && (forall p: nat :: start <= p < start + PageCount(data) ==> FilePage(d'.file, p) == PageOf(data, p - start))
  {
    var d' := WritePages(d, start, data).value;
    PwriteElsewhere(d.file, start * PAGE_SIZE, data, 0, HEADER_SIZE);
    assert d'.file[..HEADER_SIZE] == d'.file[0..HEADER_SIZE];
    forall p | 1 <= p < start && (p + 1) * PAGE_SIZE <= |d.file| ensures FilePage(d'.file, p) == FilePage(d.file, p) {
      WritePage(d.file, start, data, p);
    }
    forall p: nat | start <= p < start + PageCount(data) ensures FilePage(d'.file, p) == PageOf(data, p - start) {
      WritePage(d.file, start, data, p);
    }
  }

  /** What writing one region of bytes does to the file. */
  ghost predicate RegionWritten(d: DiskState, d': DiskState, r: PageRange, bytes: Bytes) {
    && Usable(d') && Kept(d, d') && Holds(FilePages(d'.file), r, bytes)
    && r.start == d.nextFree && r.start + r.count == d'.nextFree && d'.nextFree * PAGE_SIZE <= |d'.file|
  }

  lemma RegionIsWritten(d: DiskState, bytes: Bytes)
    requires Usable(d) && bytes != [] && d.nextFree + PagesFor(|bytes|) < TWO32
    ensures AllocatePages(d, PagesFor(|bytes|)).Some?
    ensures WritePages(AllocatePages(d, PagesFor(|bytes|)).value.0, d.nextFree, PaddedTo(bytes)).Some?
    ensures var d' := WritePages(AllocatePages(d, PagesFor(|bytes|)).value.0, d.nextFree, PaddedTo(bytes)).value;
      HeaderOnDisk(d') && RegionWritten(d, d', PageRange(d.nextFree, PagesFor(|bytes|)), bytes)
  {
    var n := PagesFor(|bytes|);
    AllocateKeeps(d, n);
    var mid := AllocatePages(d, n).value.0;
    WriteKeeps(mid, d.nextFree, PaddedTo(bytes));
    var d' := WritePages(mid, d.nextFree, PaddedTo(bytes)).value;
    forall p | 1 <= p < d.nextFree && (p + 1) * PAGE_SIZE <= |d.file|
      ensures FilePage(d'.file, p) == FilePage(d.file, p)
    {
      assert FilePage(mid.file, p) == FilePage(d.file, p);
    }
  }

  /** pad_and_write; None is the exception AllocatePages throws for no pages. */
  method PadAndWrite(disk: DiskManager, bytes: Bytes) returns (r: Option<PageRange>)
    requires Usable(disk.state) && disk.state.nextFree + PagesFor(|bytes|) < TWO32
    modifies disk
    ensures r.None? <==> bytes == []
    ensures r.None? ==> disk.state == old(disk.state)
    ensures r.Some? ==> HeaderOnDisk(disk.state) && RegionWritten(old(disk.state), disk.state, r.value, bytes)
  {
    var count := (|bytes| + PAGE_SIZE - 1) / PAGE_SIZE;
    var padded := bytes + Zeros(count * PAGE_SIZE - |bytes|);
    if bytes != [] { RegionIsWritten(disk.state, bytes); }
    var start := disk.Allocate(count);
    if start.None? {
      return None;
    }
    var ok := disk.WriteAt(start.value, padded);
    r := Some(PageRange(start.value, count));
  }

  // ----- one column -----

  function ColumnPages(col: Column): nat {
    if col.ty == Varchar then PagesFor(|OffsetBytes(col.cells)|) + PagesFor(|TextBytes(col.cells)|)
    else PagesFor(|FixedBytes(col.cells)|)
  }

  /** A VARCHAR column of empty strings only has no data pages to allocate. */
  predicate Writable(col: Column) { col.ty == Varchar ==> TextBytes(col.cells) != [] }

  function FixedEntry(ty: TypeId, r: PageRange, nulls: nat, z: ColumnZone): ColumnEntry
    requires (ty == Integer && z.IntZone?) || (ty == Float && z.FloatZone?)
  {
    if ty == Integer then IntEntry(r, nulls % TWO32, z.ints) else FloatEntry(r, nulls % TWO32, z.floats)
  }

  lemma RegionsFollow(d: DiskState, mid: DiskState, d': DiskState, r: PageRange, s: PageRange, a: Bytes, b: Bytes)
    requires 1 <= d.nextFree && RegionWritten(d, mid, r, a) && RegionWritten(mid, d', s, b)
    ensures Kept(d, d') && Holds(FilePages(d'.file), r, a) && Holds(FilePages(d'.file), s, b)
  {
    KeptTransitive(d, mid, d');
    KeptSame(mid, d', d.nextFree, mid.nextFree);
    HoldsSame(FilePages(mid.file), FilePages(d'.file), r, a, d.nextFree, mid.nextFree);
  }

  /** What writing one column does to the file. */
  ghost predicate ColumnFlushed(d: DiskState, d': DiskState, e: ColumnEntry, col: Column) {
    && Kept(d, d') && d'.nextFree * PAGE_SIZE <= |d'.file| && d'.nextFree == d.nextFree + ColumnPages(col)
    && ColumnStored(FilePages(d'.file), e, col, d.nextFree, d'.nextFree + 1)
  }

  lemma FixedFlushed(d: DiskState, d': DiskState, col: Column, r: PageRange, nulls: nat, zone: ColumnZone)
    requires col.ty != Varchar && RegionWritten(d, d', r, FixedBytes(col.cells))
    requires zone == ZoneOf(col.ty, col.cells) && nulls == NullsIn(col.cells)
    requires (col.ty == Integer && zone.IntZone?) || (col.ty == Float && zone.FloatZone?)
    ensures ColumnFlushed(d, d', FixedEntry(col.ty, r, nulls, zone), col)
  {
  }

  lemma VarcharFlushed(d: DiskState, mid: DiskState, d': DiskState, col: Column, o: PageRange, r: PageRange, nulls: nat,
                       zone: ColumnZone)
    requires col.ty == Varchar && 1 <= d.nextFree && zone.StrZone?
    requires RegionWritten(d, mid, o, OffsetBytes(col.cells)) && RegionWritten(mid, d', r, TextBytes(col.cells))
    requires zone == ZoneOf(col.ty, col.cells) && nulls == NullsIn(col.cells)
    ensures ColumnFlushed(d, d', StrEntry(o, r, nulls % TWO32, zone.strs), col)
  {
    RegionsFollow(d, mid, d', o, r, OffsetBytes(col.cells), TextBytes(col.cells));
  }

  method FlushColumn(disk: DiskManager, col: Column, rows: nat) returns (entry: Option<ColumnEntry>)
    requires Usable(disk.state) && ColumnValid(col, rows) && rows > 0
    requires disk.state.nextFree + ColumnPages(col) < TWO32
    modifies disk
    ensures Usable(disk.state)
    ensures entry.Some? <==> Writable(col)
    ensures entry.Some? ==> ColumnFlushed(old(disk.state), disk.state, entry.value, col)
  {
    var nulls, zone := Build(col.ty, col.cells);
    ZoneOfWellBuilt(col.ty, col.cells);
    if col.ty == Varchar {
      entry := FlushVarchar(disk, col, nulls, zone);
    } else {
      ghost var before := disk.state;
      var bytes := SerializeFixedWidth(col.cells);
      FixedBytesAt(col.cells, 0);
      var range := PadAndWrite(disk, bytes);
      FixedFlushed(before, disk.state, col, range.value, nulls, zone);
      entry := Some(FixedEntry(col.ty, range.value, nulls, zone));
    }
  }

  method FlushVarchar(disk: DiskManager, col: Column, nulls: nat, zone: ColumnZone) returns (entry: Option<ColumnEntry>)
    requires Usable(disk.state) && col.ty == Varchar && zone.StrZone?
    requires zone == ZoneOf(col.ty, col.cells) && nulls == NullsIn(col.cells)
    requires disk.state.nextFree + ColumnPages(col) < TWO32
    modifies disk
    ensures Usable(disk.state)
    ensures entry.Some? <==> TextBytes(col.cells) != []
    ensures entry.Some? ==> ColumnFlushed(old(disk.state), disk.state, entry.value, col)
  {
    ghost var before := disk.state;
    var offsetBytes, dataBytes := SerializeVarchar(col.cells);
    OffsetBytesAt(col.cells, 0);
    var offsets := PadAndWrite(disk, offsetBytes);
    ghost var mid := disk.state;
    var data := PadAndWrite(disk, dataBytes);
    if data.None? {
      return None;
    }
    VarcharFlushed(before, mid, disk.state, col, offsets.value, data.value, nulls, zone);
    entry := Some(StrEntry(offsets.value, data.value, nulls % TWO32, zone.strs));
  }

  // ----- one row group -----

  /** Pages for the first `n` columns. */
  function PagesUpTo(columns: seq<Column>, n: nat): nat
    requires n <= |columns|
  {
    if n == 0 then 0 else PagesUpTo(columns, n - 1) + ColumnPages(columns[n - 1])
  }

  function PagesOfColumns(columns: seq<Column>): nat { PagesUpTo(columns, |columns|) }

  function GroupPages(columns: seq<Column>, rows: nat): nat {
    PagesOfColumns(columns) + PagesFor(|columns| * ByteCount(rows))
  }

  predicate WritableUpTo(columns: seq<Column>, n: nat) {
    forall k :: 0 <= k < |columns| && k < n ==> Writable(columns[k])
  }

  predicate AllWritable(columns: seq<Column>) { WritableUpTo(columns, |columns|) }

  ghost predicate ColumnsStored(d: DiskState, entries: seq<ColumnEntry>, columns: seq<Column>, lo: nat, hi: nat) {
    |entries| <= |columns| &&
    forall k :: 0 <= k < |entries| ==> ColumnStored(FilePages(d.file), entries[k], columns[k], lo, hi)
  }

  /** Later writes leave the columns already written alone. */
  lemma ColumnsKept(d: DiskState, d': DiskState, entries: seq<ColumnEntry>, columns: seq<Column>, lo: nat, hi: nat)
    requires ColumnsStored(d, entries, columns, lo, d.nextFree + 1) && Kept(d, d') && d.nextFree + 1 <= hi
    requires 1 <= lo && (entries != [] ==> d.nextFree * PAGE_SIZE <= |d.file|)
    ensures ColumnsStored(d', entries, columns, lo, hi)
  {
    if entries != [] {
      KeptSame(d, d', lo, d.nextFree);
      forall k | 0 <= k < |entries| ensures ColumnStored(FilePages(d'.file), entries[k], columns[k], lo, hi) {
        ColumnSame(FilePages(d.file), FilePages(d'.file), entries[k], columns[k], lo, d.nextFree + 1, hi);
      }
    }
  }

  lemma {:induction false} PagesOfPrefix(columns: seq<Column>, k: nat, n: nat)
    requires k <= n <= |columns|
    ensures PagesUpTo(columns, k) <= PagesUpTo(columns, n)
  {
    if k < n {
      var last: nat := ColumnPages(columns[n - 1]);
      assert PagesUpTo(columns, n) == PagesUpTo(columns, n - 1) + last;
      PagesOfPrefix(columns, k, n - 1);
    }
  }

  /** The file after the first columns have been written. */
  ghost predicate ColumnsFlushed(d: DiskState, d': DiskState, entries: seq<ColumnEntry>, columns: seq<Column>) {
    && Kept(d, d') && |entries| <= |columns|
    && d'.nextFree == d.nextFree + PagesUpTo(columns, |entries|)
    && (entries != [] ==> d'.nextFree * PAGE_SIZE <= |d'.file|)
    && ColumnsStored(d', entries, columns, d.nextFree, d'.nextFree + 1)
  }

  lemma NextColumnFlushed(d: DiskState, mid: DiskState, d': DiskState, entries: seq<ColumnEntry>, e: ColumnEntry,
                          columns: seq<Column>)
    requires 1 <= d.nextFree && |entries| < |columns|
    requires ColumnsFlushed(d, mid, entries, columns) && ColumnFlushed(mid, d', e, columns[|entries|])
    ensures ColumnsFlushed(d, d', entries + [e], columns)
  {
    KeptTransitive(d, mid, d');
    var hi: nat := d'.nextFree + 1;
    ColumnsKept(mid, d', entries, columns, d.nextFree, hi);
    EntryFits(mid, d', d.nextFree, e, columns[|entries|]);
    OneMoreStored(d', entries, e, columns, d.nextFree, hi);
  }

  lemma OneMoreStored(d: DiskState, entries: seq<ColumnEntry>, e: ColumnEntry, columns: seq<Column>, lo: nat, hi: nat)
    requires ColumnsStored(d, entries, columns, lo, hi) && |entries| < |columns|
    requires ColumnStored(FilePages(d.file), e, columns[|entries|], lo, hi)
    ensures ColumnsStored(d, entries + [e], columns, lo, hi)
  {
  }

  lemma EntryFits(mid: DiskState, d': DiskState, lo: nat, e: ColumnEntry, col: Column)
    requires ColumnFlushed(mid, d', e, col) && lo <= mid.nextFree
    ensures ColumnStored(FilePages(d'.file), e, col, lo, d'.nextFree + 1)
  {
  }

  method FlushNext(disk: DiskManager, ghost before: DiskState, columns: seq<Column>, rows: nat, done: seq<ColumnEntry>)
      returns (entries: Option<seq<ColumnEntry>>)
    requires 1 <= before.nextFree && Usable(disk.state) && ColumnsFlushed(before, disk.state, done, columns)
    requires |done| < |columns| && ColumnValid(columns[|done|], rows) && rows > 0
    requires before.nextFree + PagesOfColumns(columns) < TWO32
    modifies disk
    ensures Usable(disk.state)
    ensures entries.Some? <==> Writable(columns[|done|])
    ensures entries.Some? ==>
      |entries.value| == |done| + 1 && ColumnsFlushed(before, disk.state, entries.value, columns)
  {
    ghost var mid := disk.state;
    PagesOfPrefix(columns, |done| + 1, |columns|);
    var entry := FlushColumn(disk, columns[|done|], rows);
    if entry.None? {
      return None;
    }
    NextColumnFlushed(before, mid, disk.state, done, entry.value, columns);
    entries := Some(done + [entry.value]);
  }

  method FlushColumns(disk: DiskManager, columns: seq<Column>, rows: nat) returns (entries: Option<seq<ColumnEntry>>)
    requires Usable(disk.state) && ColumnsValid(columns, rows) && rows > 0
    requires disk.state.nextFree + PagesOfColumns(columns) < TWO32
    modifies disk
    ensures Usable(disk.state)
    ensures entries.Some? <==> AllWritable(columns)
    ensures entries.Some? ==>
      |entries.value| == |columns| && ColumnsFlushed(old(disk.state), disk.state, entries.value, columns)
  {
    ghost var before := disk.state;
    var done: seq<ColumnEntry> := [];
    NothingFlushed(before, columns);
    while |done| < |columns|
      invariant Usable(disk.state) && |done| <= |columns| && ColumnsFlushed(before, disk.state, done, columns)
      invariant WritableUpTo(columns, |done|)
      decreases |columns| - |done|
    {
      assert ColumnValid(columns[|done|], rows);
      var more := FlushNext(disk, before, columns, rows, done);
      if more.None? {
        return None;
      }
      done := more.value;
    }
    entries := Some(done);
  }

  lemma NothingFlushed(d: DiskState, columns: seq<Column>)
    ensures ColumnsFlushed(d, d, [], columns)
  {
  }

  lemma GroupComplete(d: DiskState, mid: DiskState, d': DiskState, entries: seq<ColumnEntry>, bitmap: PageRange,
                      tableId: U32, columns: seq<Column>, rows: U32, bits: Bytes)
    requires 1 <= d.nextFree && Kept(d, mid) && |entries| == |columns| && columns != [] && ColumnsValid(columns, rows)
    requires ColumnsStored(mid, entries, columns, d.nextFree, mid.nextFree + 1) &&
      mid.nextFree * PAGE_SIZE <= |mid.file|
    requires RegionWritten(mid, d', bitmap, bits) && bits != [] && BitsAre(bits, columns, rows)
    ensures Kept(d, d')
    ensures GroupStored(FilePages(d'.file), RowGroup(tableId, rows, bitmap, entries), Content(columns, rows, bits),
      d.nextFree, d'.nextFree)
  {
    KeptTransitive(d, mid, d');
    assert bitmap.count >= 1;
    ColumnsKept(mid, d', entries, columns, d.nextFree, d'.nextFree);
  }

  /** FlushRowGroup on non-empty staging columns. It fails exactly when there
      are no columns or a VARCHAR column holds no byte of text. */
  method StoreRowGroup(disk: DiskManager, tableId: U32, columns: seq<Column>, rows: U32)
      returns (group: Option<RowGroup>, ghost bits: Bytes)
    requires Usable(disk.state) && ColumnsValid(columns, rows) && rows > 0
    requires disk.state.nextFree + GroupPages(columns, rows) < TWO32
    modifies disk
    ensures group.Some? <==> columns != [] && AllWritable(columns)
    ensures group.Some? ==>
      && HeaderOnDisk(disk.state) && group.value.tableId == tableId
      && Kept(old(disk.state), disk.state) && disk.state.nextFree * PAGE_SIZE <= |disk.state.file|
      && disk.state.nextFree == old(disk.state).nextFree + GroupPages(columns, rows)
      && GroupStored(FilePages(disk.state.file), group.value, Content(columns, rows, bits),
                     old(disk.state).nextFree, disk.state.nextFree)
  {
    ghost var before := disk.state;
    bits := [];
    var entries := FlushColumns(disk, columns, rows);
    if entries.None? {
      return None, bits;
    }
    ghost var mid := disk.state;
    var bytes := BuildValidityBitmapBytes(columns, rows);
    RegionSize(|columns|, ByteCount(rows));
    assert |bytes| == |columns| * ByteCount(rows);
    var bitmap := PadAndWrite(disk, bytes);
    if bitmap.None? {
      return None, bits;
    }
    bits := bytes;
    GroupComplete(before, mid, disk.state, entries.value, bitmap.value, tableId, columns, rows, bytes);
    group := Some(RowGroup(tableId, rows, bitmap.value, entries.value));
  }

  lemma RegionSize(n: nat, stride: nat)
    requires stride > 0
    ensures n * stride == 0 <==> n == 0
  {
  }

  // ----- a whole table -----

  function ContentRows(c: Content): seq<Cells> {
    if ColumnsValid(c.columns, c.rows) then RowsOf(c.columns, c.rows) else []
  }
  function ContentRowsOf(): Content -> seq<Cells> { (c: Content) => ContentRows(c) }

  /** The rows of all row groups, in order. */
  function StoredRows(contents: seq<Content>): seq<Cells> { ConcatMap(contents, ContentRowsOf()) }

  /** The pages from `e.0` up to `e.1` have been handed out and are in the file. */
  predicate ExtentIn(d: DiskState, e: (nat, nat)) { 1 <= e.0 && e.1 <= d.nextFree && e.1 * PAGE_SIZE <= |d.file| }

  ghost predicate StoredIn(d: DiskState, g: RowGroup, c: Content, e: (nat, nat)) {
    0 < c.rows && ExtentIn(d, e) && GroupStored(FilePages(d.file), g, c, e.0, e.1)
  }

  ghost predicate TableStored(d: DiskState, groups: seq<RowGroup>, contents: seq<Content>, extents: seq<(nat, nat)>) {
    |groups| == |contents| == |extents| &&
    forall k :: 0 <= k < |groups| ==> StoredIn(d, groups[k], contents[k], extents[k])
  }

  lemma StoredKept(d: DiskState, d': DiskState, g: RowGroup, c: Content, e: (nat, nat))
    requires StoredIn(d, g, c, e) && Kept(d, d')
    ensures StoredIn(d', g, c, e)
  {
    KeptSame(d, d', e.0, e.1);
    GroupSame(FilePages(d.file), FilePages(d'.file), g, c, e.0, e.1);
  }

  lemma TableExtended(d: DiskState, d': DiskState, groups: seq<RowGroup>, contents: seq<Content>,
                      extents: seq<(nat, nat)>,
                      g: RowGroup, c: Content, e: (nat, nat))
    requires TableStored(d, groups, contents, extents) && Kept(d, d') && StoredIn(d', g, c, e)
    ensures TableStored(d', groups + [g], contents + [c], extents + [e])
  {
    forall k | 0 <= k < |groups| ensures StoredIn(d', groups[k], contents[k], extents[k]) {
      StoredKept(d, d', groups[k], contents[k], extents[k]);
    }
  }

  ghost predicate ContentsTyped(contents: seq<Content>, types: seq<TypeId>) {
    forall k :: 0 <= k < |contents| ==> ColumnsTyped(contents[k].columns, types)
  }

  /** The staged rows, once written out, come after the rows stored before. */
  lemma StagedBecomeStored(contents: seq<Content>, columns: seq<Column>, rows: nat, bits: Bytes, types: seq<TypeId>)
    requires ColumnsValid(columns, rows) && ColumnsTyped(columns, types) && ContentsTyped(contents, types)
    ensures ContentsTyped(contents + [Content(columns, rows, bits)], types)
    ensures StoredRows(contents + [Content(columns, rows, bits)]) == StoredRows(contents) + RowsOf(columns, rows)
  {
    ConcatMapSnoc(contents, Content(columns, rows, bits), ContentRowsOf());
  }

  // ----- when a row group can be written -----

  /** Every VARCHAR column has a non-empty string somewhere, and there is a column at all. */
  ghost predicate Flushable(types: seq<TypeId>, rows: seq<Cells>) {
    types != [] &&
    forall k :: 0 <= k < |types| && types[k] == Varchar ==> HasText(rows, k)
  }

  ghost predicate HasText(rows: seq<Cells>, k: nat) {
    exists i :: 0 <= i < |rows| && k < |rows[i]| && Text(rows[i][k]) != []
  }

  lemma {:induction false} TextBytesEmpty(cells: seq<Datum>)
    ensures TextBytes(cells) == [] <==> forall i :: 0 <= i < |cells| ==> Text(cells[i]) == []
  {
    if cells != [] {
      var init, last := cells[..|cells| - 1], cells[|cells| - 1];
      TextBytesEmpty(init);
      EmptySum(TextBytes(init), Text(last));
      assert forall i :: 0 <= i < |init| ==> cells[i] == init[i];
    }
  }

  lemma EmptySum(a: Bytes, b: Bytes)
    ensures a + b == [] <==> a == [] && b == []
  {
    assert |a + b| == |a| + |b|;
  }

  lemma HasTextIff(columns: seq<Column>, n: nat, k: nat)
    requires ColumnsValid(columns, n) && k < |columns|
    ensures HasText(RowsOf(columns, n), k) <==> TextBytes(columns[k].cells) != []
  {
    TextBytesEmpty(columns[k].cells);
    var rows := RowsOf(columns, n);
    forall i | 0 <= i < n ensures k < |rows[i]| && rows[i][k] == columns[k].cells[i] { }
    if TextBytes(columns[k].cells) != [] {
      var i :| 0 <= i < n && Text(columns[k].cells[i]) != [];
      assert Text(rows[i][k]) != [];
    }
  }

  lemma FlushableIff(columns: seq<Column>, n: nat, types: seq<TypeId>)
    requires ColumnsValid(columns, n) && ColumnsTyped(columns, types)
    ensures Flushable(types, RowsOf(columns, n)) <==> columns != [] && AllWritable(columns)
  {
    forall k | 0 <= k < |columns| ensures HasText(RowsOf(columns, n), k) <==> TextBytes(columns[k].cells) != [] {
      HasTextIff(columns, n, k);
    }
  }

  function Staged(columns: seq<Column>, row: Cells): seq<Column>
    requires |row| == |columns|
  {
    seq(|columns|, k requires 0 <= k < |columns| => Column(columns[k].ty, columns[k].cells + [row[k]]))
  }

  /** Only the columns before `c` have got their cell of the row. */
  function HalfStaged(columns: seq<Column>, row: Cells, c: nat): seq<Column>
    requires |row| == |columns| && c <= |columns|
  {
    Staged(columns, row)[..c] + columns[c..]
  }

  predicate FirstMistyped(row: Cells, types: seq<TypeId>, c: nat) {
    c < |row| == |types| && !HasType(row[c], types[c]) && forall k :: 0 <= k < c ==> HasType(row[k], types[k])
  }

  /** What a row with a mistyped value leaves behind: uneven columns. */
  ghost predicate LeftUneven(before: seq<Column>, after: seq<Column>, row: Cells, types: seq<TypeId>) {
    |row| == |before| &&
    exists c: nat :: c <= |before| && FirstMistyped(row, types, c) && after == HalfStaged(before, row, c)
  }

  predicate OneMoreGroup(before: seq<RowGroup>, after: seq<RowGroup>) {
    |after| == |before| + 1 && after[..|before|] == before
  }

  lemma AppendedRows(columns: seq<Column>, n: nat, types: seq<TypeId>, row: Cells)
    requires ColumnsValid(columns, n) && ColumnsTyped(columns, types) && CellsTyped(row, types)
    ensures ColumnsValid(Staged(columns, row), n + 1) && ColumnsTyped(Staged(columns, row), types)
    ensures RowsOf(Staged(columns, row), n + 1) == RowsOf(columns, n) + [row]
  {
    var out := Staged(columns, row);
    forall i | 0 <= i < n ensures RowOf(out, n + 1, i) == RowOf(columns, n, i) { }
    assert RowOf(out, n + 1, n) == row;
  }

  class InsertExecutor {
    const disk: DiskManager
    const tableId: U32
    const types: seq<TypeId>
    var columns: seq<Column>
    var rowCount: nat
    /** The row groups handed to the catalog. */
    var groups: seq<RowGroup>
    ghost var contents: seq<Content>
    ghost var extents: seq<(nat, nat)>

    ghost predicate StagingValid()
      reads this
    {
      ColumnsValid(columns, rowCount) && ColumnsTyped(columns, types)
    }

    ghost predicate Valid()
      reads this, disk
    {
      && StagingValid() && rowCount < ROW_GROUP_SIZE && Usable(disk.state)
      && TableStored(disk.state, groups, contents, extents) && ContentsTyped(contents, types)
    }

    /** Everything inserted so far. */
    ghost function Rows(): seq<Cells>
      requires StagingValid()
      reads this
    {
      StoredRows(contents) + RowsOf(columns, rowCount)
    }

    constructor (d: DiskManager, id: U32, tys: seq<TypeId>)
      requires Usable(d.state)
      ensures Valid() && Rows() == [] && disk == d && types == tys && rowCount == 0 && groups == []
    {
      disk, tableId, types := d, id, tys;
      columns, rowCount, groups, contents, extents := EmptyColumns(tys), 0, [], [], [];
    }

    /** Fails exactly when rows are staged that cannot be written: no column, or
        a VARCHAR column without a non-empty string. */
    method FlushRowGroup() returns (ok: bool)
      requires StagingValid() && rowCount <= ROW_GROUP_SIZE && Usable(disk.state)
      requires TableStored(disk.state, groups, contents, extents) && ContentsTyped(contents, types)
      requires disk.state.nextFree + GroupPages(columns, rowCount) < TWO32
      modifies this, disk
      ensures ok <==> old(rowCount) == 0 || Flushable(types, old(RowsOf(columns, rowCount)))
      ensures ok ==> Valid() && rowCount == 0 && Rows() == old(Rows())
      ensures ok && old(rowCount) > 0 ==> Kept(old(disk.state), disk.state) && HeaderOnDisk(disk.state)
      ensures ok && old(rowCount) == 0 ==> groups == old(groups)
      ensures ok && old(rowCount) > 0 ==> OneMoreGroup(old(groups), groups)
    {
      if rowCount == 0 {
        return true;
      }
      FlushableIff(columns, rowCount, types);
      ghost var before := disk.state;
      var group, bits := StoreRowGroup(disk, tableId, columns, rowCount);
      if group.None? {
        return false;
      }
      ghost var content := Content(columns, rowCount, bits);
      ghost var extent := (before.nextFree, disk.state.nextFree);
      TableExtended(before, disk.state, groups, contents, extents, group.value, content, extent);
      StagedBecomeStored(contents, columns, rowCount, bits, types);
      groups := groups + [group.value];
      contents := contents + [content];
      extents := extents + [extent];
      ResetStaging();
      ok := true;
    }

    /** Staging starts over, with no rows. */
    method ResetStaging()
      modifies this`columns, this`rowCount
      ensures StagingValid() && rowCount == 0 && Rows() == StoredRows(contents)
    {
      columns, rowCount := EmptyColumns(types), 0;
      PlusEmpty(StoredRows(contents));
    }

    /** Appends the row to the staging columns, column by column; a value of the
        wrong type throws and leaves the columns before it longer. */
    method StageRow(row: Cells) returns (ok: bool)
      requires StagingValid() && |row| == |types|
      modifies this`columns, this`rowCount
      ensures ok <==> CellsTyped(row, types)
      ensures ok ==> columns == Staged(old(columns), row) && rowCount == old(rowCount) + 1
      ensures !ok ==> LeftUneven(old(columns), columns, row, types) && rowCount == old(rowCount)
    {
      ghost var before := columns;
      for c := 0 to |columns|
        invariant |columns| == |before| && rowCount == old(rowCount)
        invariant forall k :: 0 <= k < c ==> HasType(row[k], types[k])
        invariant forall k :: 0 <= k < |columns| ==>
          columns[k] == if k < c then Column(before[k].ty, before[k].cells + [row[k]]) else before[k]
      {
        if !HasType(row[c], types[c]) {
          assert FirstMistyped(row, types, c) && columns == HalfStaged(before, row, c);
          return false;
        }
        columns := columns[c := Column(columns[c].ty, columns[c].cells + [row[c]])];
      }
      rowCount := rowCount + 1;
      assert columns == Staged(before, row);
      ok := true;
    }

    /** Stages a row; one of the right types is then the last of the rows. */
    method StageLast(row: Cells) returns (ok: bool)
      requires StagingValid() && |row| == |types|
      modifies this`columns, this`rowCount
      ensures ok <==> CellsTyped(row, types)
      ensures ok ==>
        && StagingValid() && columns == Staged(old(columns), row) && rowCount == old(rowCount) + 1
        && RowsOf(columns, rowCount) == old(RowsOf(columns, rowCount)) + [row] && Rows() == old(Rows()) + [row]
      ensures !ok ==> LeftUneven(old(columns), columns, row, types) && rowCount == old(rowCount)
    {
      ghost var rows := RowsOf(columns, rowCount);
      if CellsTyped(row, types) { AppendedRows(columns, rowCount, types, row); }
      ok := StageRow(row);
      if ok { Assoc(StoredRows(contents), rows, [row]); }
    }

    /** InsertRow: a full staging area is written out at once. */
    method InsertRow(row: Cells) returns (ok: bool)
      requires Valid() && |row| == |types|
      requires disk.state.nextFree + GroupPages(Staged(columns, row), rowCount + 1) < TWO32
      modifies this, disk
      ensures ok <==>
        && CellsTyped(row, types)
        && (old(rowCount) + 1 < ROW_GROUP_SIZE || Flushable(types, old(RowsOf(columns, rowCount)) + [row]))
      ensures ok ==> Valid() && Rows() == old(Rows()) + [row]
      ensures CellsTyped(row, types) && old(rowCount) + 1 < ROW_GROUP_SIZE ==>
        rowCount == old(rowCount) + 1 && groups == old(groups) && disk.state == old(disk.state)
      ensures ok && old(rowCount) + 1 == ROW_GROUP_SIZE ==>
        rowCount == 0 && OneMoreGroup(old(groups), groups)
      ensures !CellsTyped(row, types) ==>
        && LeftUneven(old(columns), columns, row, types)
        && rowCount == old(rowCount) && groups == old(groups) && disk.state == old(disk.state)
    {
      ok := StageLast(row);
      if ok && rowCount >= ROW_GROUP_SIZE {
        ok := FlushRowGroup();
      }
    }
  }
}
