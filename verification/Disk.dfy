/** The single database file: a header in page 0, page extents handed out in
    order, and a metadata blob appended behind everything. POSIX reads and
    writes act on a byte sequence; None is an exception. */
module Disk {
  import opened Seqs
  import opened Types
  import opened ByteIO

  const HEADER_SIZE: nat := 20
  const MAGIC: seq<Byte> := [0x47, 0x49, 0x53, 0x54, 0x44, 0x42, 0x30, 0x31]

  /** The open file and the in-memory copy of its header. */
  datatype DiskState = DiskState(file: Bytes, nextFree: nat, metaOffset: nat)

  // ----- pwrite -----

  function Zeros(n: nat): Bytes { seq(n, _ => 0) }

  /** Writing past the end leaves a gap of zeros; writing nothing changes nothing. */
  function Pwrite(file: Bytes, off: nat, data: Bytes): (out: Bytes)
    ensures data != [] ==> |out| == if |file| < off + |data| then off + |data| else |file|
  {
    if data == [] then file
    else
      var base := if |file| < off then file + Zeros(off - |file|) else file;
      base[..off] + data + (if off + |data| < |base| then base[off + |data|..] else [])
  }

  lemma PwriteHere(file: Bytes, off: nat, data: Bytes)
    requires data != []
    ensures Pwrite(file, off, data)[off..off + |data|] == data
  {
  }

  lemma PwriteElsewhere(file: Bytes, off: nat, data: Bytes, a: nat, b: nat)
    requires a <= b <= |file| && (b <= off || off + |data| <= a)
    ensures b <= |Pwrite(file, off, data)| && Pwrite(file, off, data)[a..b] == file[a..b]
  {
    var out := Pwrite(file, off, data);
    if data != [] {
      forall i | a <= i < b ensures out[i] == file[i] { }
    }
  }

  // ----- the header -----

  function HeaderBytes(metaOffset: U64, nextFree: U32): (b: Bytes)
    ensures |b| == HEADER_SIZE
  {
    MAGIC + EncodeU64(metaOffset) + EncodeU32(nextFree)
  }

  /** FileHeader::Deserialize: too short or the wrong magic is refused. */
  function ParseHeader(bytes: Bytes): Option<(U64, U32)> {
    if |bytes| < HEADER_SIZE || bytes[..8] != MAGIC then None
    else
      var meta :- DecodeU64(bytes[8..]);
      var next :- DecodeU32(meta.1);
      Some((meta.0, next.0))
  }

  lemma HeaderRoundTrip(metaOffset: U64, nextFree: U32)
    ensures ParseHeader(HeaderBytes(metaOffset, nextFree)) == Some((metaOffset, nextFree))
  {
    var bytes := HeaderBytes(metaOffset, nextFree);
    assert bytes[8..] == EncodeU64(metaOffset) + EncodeU32(nextFree);
    U64RoundTrip(metaOffset, EncodeU32(nextFree));
    U32RoundTrip(nextFree, []);
    assert EncodeU32(nextFree) + [] == EncodeU32(nextFree);
  }

  predicate InRange(d: DiskState) { d.nextFree < TWO32 && d.metaOffset < TWO64 }

  function Persisted(d: DiskState): DiskState
    requires InRange(d)
  {
    d.(file := Pwrite(d.file, 0, HeaderBytes(d.metaOffset, d.nextFree)))
  }

  // ----- operations -----

  function CreateNew(): DiskState { Persisted(DiskState([], 1, HEADER_SIZE)) }

  function Open(file: Bytes): Option<DiskState> {
    if |file| < HEADER_SIZE then None
    else
      var header :- ParseHeader(file[..HEADER_SIZE]);
      Some(DiskState(file, header.1, header.0))
  }

  function AllocatePages(d: DiskState, count: nat): Option<(DiskState, nat)>
    requires InRange(d) && d.nextFree + count < TWO32
  {
    if count == 0 then None else Some((Persisted(d.(nextFree := d.nextFree + count)), d.nextFree))
  }

  function WritePages(d: DiskState, start: nat, data: Bytes): Option<DiskState> {
    if start == 0 || data == [] || |data| % PAGE_SIZE != 0 then None
    else Some(d.(file := Pwrite(d.file, start * PAGE_SIZE, data)))
  }

  function ReadPages(d: DiskState, start: nat, count: nat): Option<Bytes> {
    if count == 0 || start == 0 || |d.file| < (start + count) * PAGE_SIZE then None
    else Some(d.file[start * PAGE_SIZE..(start + count) * PAGE_SIZE])
  }

  function AppendOffset(d: DiskState): nat {
    if |d.file| < d.nextFree * PAGE_SIZE then d.nextFree * PAGE_SIZE else |d.file|
  }

  function WriteMetadataBlob(d: DiskState, blob: Bytes): DiskState
    requires InRange(d) && AppendOffset(d) < TWO64
  {
    Persisted(DiskState(Pwrite(d.file, AppendOffset(d), blob), d.nextFree, AppendOffset(d)))
  }

  function ReadMetadataBlob(d: DiskState): Option<Bytes> {
    if d.metaOffset > |d.file| then None else Some(d.file[d.metaOffset..])
  }

  // ----- invariant -----

  /** The header on disk is the header in memory, and page 0 is never handed out. */
  predicate HeaderOnDisk(d: DiskState) {
    && InRange(d) && 1 <= d.nextFree
    && HEADER_SIZE <= |d.file| && d.file[..HEADER_SIZE] == HeaderBytes(d.metaOffset, d.nextFree)
  }

  lemma PersistedHeader(d: DiskState)
    requires InRange(d) && 1 <= d.nextFree
    ensures HeaderOnDisk(Persisted(d))
    ensures HEADER_SIZE <= |d.file| ==> |Persisted(d).file| == |d.file|
  {
    var h := HeaderBytes(d.metaOffset, d.nextFree);
    PwriteHere(d.file, 0, h);
    assert Persisted(d).file[..HEADER_SIZE] == Persisted(d).file[0..0 + |h|];
  }

  /** Bytes past the header survive persisting it. */
  lemma PersistedElsewhere(d: DiskState, a: nat, b: nat)
    requires InRange(d) && HEADER_SIZE <= a <= b <= |d.file|
    ensures b <= |Persisted(d).file| && Persisted(d).file[a..b] == d.file[a..b]
  {
    PwriteElsewhere(d.file, 0, HeaderBytes(d.metaOffset, d.nextFree), a, b);
  }

  lemma ReopenRestoresState(d: DiskState)
    requires HeaderOnDisk(d)
    ensures Open(d.file) == Some(d)
  {
    HeaderRoundTrip(d.metaOffset, d.nextFree);
  }

  /** The state between appending the blob and persisting the header. */
  function Appended(d: DiskState, blob: Bytes): DiskState {
    DiskState(Pwrite(d.file, AppendOffset(d), blob), d.nextFree, AppendOffset(d))
  }

  lemma BlobInPlace(d: DiskState, blob: Bytes)
    requires HeaderOnDisk(d) && AppendOffset(d) < TWO64 && blob != []
    ensures HeaderOnDisk(WriteMetadataBlob(d, blob))
    ensures |WriteMetadataBlob(d, blob).file| == AppendOffset(d) + |blob|
    ensures WriteMetadataBlob(d, blob).file[AppendOffset(d)..AppendOffset(d) + |blob|] == blob
  {
    var off, mid := AppendOffset(d), Appended(d, blob);
    PersistedHeader(mid);
    PwriteHere(d.file, off, blob);
    PersistedElsewhere(mid, off, off + |blob|);
  }

  /** Reopening right after a blob write finds exactly that blob. */
  lemma BlobRoundTrip(d: DiskState, blob: Bytes)
    requires HeaderOnDisk(d) && AppendOffset(d) < TWO64 && blob != []
    ensures HeaderOnDisk(WriteMetadataBlob(d, blob))
    ensures Open(WriteMetadataBlob(d, blob).file) == Some(WriteMetadataBlob(d, blob))
    ensures ReadMetadataBlob(WriteMetadataBlob(d, blob)) == Some(blob)
  {
    BlobInPlace(d, blob);
    BlobReopens(WriteMetadataBlob(d, blob), AppendOffset(d), blob);
  }

  lemma BlobReopens(d: DiskState, off: nat, blob: Bytes)
    requires HeaderOnDisk(d) && d.metaOffset == off && |d.file| == off + |blob| && d.file[off..off + |blob|] == blob
    ensures Open(d.file) == Some(d) && ReadMetadataBlob(d) == Some(blob)
  {
    ReopenRestoresState(d);
    WholeTail(d.file, off, |blob|);
  }

  lemma WholeTail(s: Bytes, off: nat, n: nat)
    requires |s| == off + n
    ensures s[off..] == s[off..off + n]
  {
  }

  // ----- runs -----

  datatype DiskOp = Allocate(count: nat) | Write(start: nat, data: Bytes) | Persist(blob: Bytes)

  /** The file together with what has been handed out and written so far. */
  datatype Trace = Trace(disk: DiskState, extents: seq<(nat, nat)>, written: map<nat, Bytes>)

  function PageAt(file: Bytes, p: nat): Bytes
    requires (p + 1) * PAGE_SIZE <= |file|
  {
    file[p * PAGE_SIZE..(p + 1) * PAGE_SIZE]
  }

  function PageCount(data: Bytes): nat { |data| / PAGE_SIZE }

  function PageOf(data: Bytes, i: nat): Bytes
    requires i < PageCount(data)
  {
    data[i * PAGE_SIZE..(i + 1) * PAGE_SIZE]
  }

  /** Callers write whole pages, only to pages they were given. */
  predicate Enabled(d: DiskState, op: DiskOp) {
    match op
    case Allocate(count) => 0 < count && d.nextFree + count < TWO32
    case Write(start, data) =>
      1 <= start && data != [] && |data| % PAGE_SIZE == 0 && start + PageCount(data) <= d.nextFree
    case Persist(blob) => blob != [] && AppendOffset(d) < TWO64
  }

  /** The page that a write of `data` from `start` on puts at page `p`. */
  function PageFor(start: nat, data: Bytes, p: nat): Bytes {
    if start <= p < start + PageCount(data) then PageOf(data, p - start) else []
  }

  function WrittenBy(start: nat, data: Bytes): map<nat, Bytes> {
    map p: nat | start <= p < start + PageCount(data) :: PageFor(start, data, p)
  }

  function Step(t: Trace, op: DiskOp): Trace
    requires InRange(t.disk) && Enabled(t.disk, op)
  {
    match op
    case Allocate(count) =>
      Trace(AllocatePages(t.disk, count).value.0, t.extents + [(AllocatePages(t.disk, count).value.1, count)],
        t.written)
    case Write(start, data) =>
      Trace(WritePages(t.disk, start, data).value, t.extents, t.written + WrittenBy(start, data))
    case Persist(blob) => Trace(WriteMetadataBlob(t.disk, blob), t.extents, t.written)
  }

  /** Extents follow one another from page 1 up to the next free page. */
  predicate ExtentsInOrder(extents: seq<(nat, nat)>, end: nat) {
    if extents == [] then end == 1
    else
      var last := extents[|extents| - 1];
      0 < last.1 && last.0 + last.1 == end && ExtentsInOrder(extents[..|extents| - 1], last.0)
  }

  ghost predicate PagesIntact(t: Trace) {
    forall p :: p in t.written ==>
      1 <= p < t.disk.nextFree && (p + 1) * PAGE_SIZE <= |t.disk.file| && PageAt(t.disk.file, p) == t.written[p]
  }

  ghost predicate Intact(t: Trace) {
    HeaderOnDisk(t.disk) && ExtentsInOrder(t.extents, t.disk.nextFree) && PagesIntact(t)
  }

  lemma {:induction false} ExtentsDisjoint(extents: seq<(nat, nat)>, end: nat)
    requires ExtentsInOrder(extents, end)
    ensures 1 <= end
    ensures forall i :: 0 <= i < |extents| ==> 1 <= extents[i].0 && extents[i].0 + extents[i].1 <= end
    ensures forall i, j :: 0 <= i < j < |extents| ==> extents[i].0 + extents[i].1 <= extents[j].0
  {
    if extents != [] {
      ExtentsDisjoint(extents[..|extents| - 1], extents[|extents| - 1].0);
    }
  }

  /** Writing pages: the written ones read back, the others keep their bytes. */
  lemma WritePage(file: Bytes, start: nat, data: Bytes, p: nat)
    requires 1 <= start && data != [] && |data| % PAGE_SIZE == 0
    ensures var out := Pwrite(file, start * PAGE_SIZE, data);
      && (start <= p < start + PageCount(data) ==>
        (p + 1) * PAGE_SIZE <= |out| && PageAt(out, p) == PageOf(data, p - start))
      && (!(start <= p < start + PageCount(data)) && (p + 1) * PAGE_SIZE <= |file| ==>
            (p + 1) * PAGE_SIZE <= |out| && PageAt(out, p) == PageAt(file, p))
  {
    var off := start * PAGE_SIZE;
    var out := Pwrite(file, off, data);
    PwriteHere(file, off, data);
    if start <= p < start + PageCount(data) {
      var a := (p - start) * PAGE_SIZE;
      assert (p + 1) * PAGE_SIZE <= off + |data|;
      assert PageAt(out, p) == out[off..off + |data|][a..a + PAGE_SIZE];
    } else if (p + 1) * PAGE_SIZE <= |file| {
      PwriteElsewhere(file, off, data, p * PAGE_SIZE, (p + 1) * PAGE_SIZE);
    }
  }

  lemma WriteIntact(t: Trace, start: nat, data: Bytes)
    requires Intact(t) && Enabled(t.disk, Write(start, data))
    ensures Intact(Step(t, Write(start, data)))
  {
    var t' := Step(t, Write(start, data));
    forall p | p in t'.written
      ensures 1 <= p < t'.disk.nextFree && (p + 1) * PAGE_SIZE <= |t'.disk.file| &&
        PageAt(t'.disk.file, p) == t'.written[p]
    {
      WritePage(t.disk.file, start, data, p);
    }
    PwriteElsewhere(t.disk.file, start * PAGE_SIZE, data, 0, HEADER_SIZE);
    assert t'.disk.file[..HEADER_SIZE] == t'.disk.file[0..HEADER_SIZE];
  }

  /** Persisting the header touches no data page. */
  lemma PersistedPage(d: DiskState, p: nat)
    requires InRange(d) && 1 <= p && (p + 1) * PAGE_SIZE <= |d.file|
    ensures (p + 1) * PAGE_SIZE <= |Persisted(d).file| && PageAt(Persisted(d).file, p) == PageAt(d.file, p)
  {
    PersistedElsewhere(d, p * PAGE_SIZE, (p + 1) * PAGE_SIZE);
  }

  lemma AllocateIntact(t: Trace, count: nat)
    requires Intact(t) && Enabled(t.disk, Allocate(count))
    ensures Intact(Step(t, Allocate(count)))
  {
    var d := t.disk.(nextFree := t.disk.nextFree + count);
    PersistedHeader(d);
    forall p | p in t.written
      ensures (p + 1) * PAGE_SIZE <= |Persisted(d).file| && PageAt(Persisted(d).file, p) == t.written[p]
    {
      PersistedPage(d, p);
    }
    var extents := t.extents + [(t.disk.nextFree, count)];
    assert extents[..|extents| - 1] == t.extents;
  }

  lemma PersistIntact(t: Trace, blob: Bytes)
    requires Intact(t) && Enabled(t.disk, Persist(blob))
    ensures Intact(Step(t, Persist(blob)))
  {
    BlobRoundTrip(t.disk, blob);
    var off, mid := AppendOffset(t.disk), Appended(t.disk, blob);
    forall p | p in t.written
      ensures (p + 1) * PAGE_SIZE <= |Persisted(mid).file| && PageAt(Persisted(mid).file, p) == t.written[p]
    {
      assert (p + 1) * PAGE_SIZE <= t.disk.nextFree * PAGE_SIZE <= off;
      PwriteElsewhere(t.disk.file, off, blob, p * PAGE_SIZE, (p + 1) * PAGE_SIZE);
      PersistedPage(mid, p);
    }
  }

  lemma StepIntact(t: Trace, op: DiskOp)
    requires Intact(t) && Enabled(t.disk, op)
    ensures Intact(Step(t, op))
  {
    match op
    case Allocate(count) => AllocateIntact(t, count);
    case Write(start, data) => WriteIntact(t, start, data);
    case Persist(blob) => PersistIntact(t, blob);
  }

  /** A run: the states visited, one operation apart. */
  ghost predicate IsRun(ts: seq<Trace>, ops: seq<DiskOp>) {
    && |ts| == |ops| + 1
    && ts[0] == Trace(CreateNew(), [], map[])
    && forall i :: 0 <= i < |ops| ==>
         InRange(ts[i].disk) && Enabled(ts[i].disk, ops[i]) && ts[i + 1] == Step(ts[i], ops[i])
  }

  lemma CreateNewIntact()
    ensures Intact(Trace(CreateNew(), [], map[]))
  {
    PersistedHeader(DiskState([], 1, HEADER_SIZE));
  }

  /** In every state of every run: extents are disjoint and start past page 0,
      every written page still reads back its last bytes, and the file can be
      reopened to the same state. */
  lemma {:induction false} EveryRunIsIntact(ts: seq<Trace>, ops: seq<DiskOp>, k: nat)
    requires IsRun(ts, ops) && k < |ts|
    ensures Intact(ts[k]) && Open(ts[k].disk.file) == Some(ts[k].disk)
  {
    if k == 0 {
      CreateNewIntact();
    } else {
      EveryRunIsIntact(ts, ops, k - 1);
      StepIntact(ts[k - 1], ops[k - 1]);
    }
    ReopenRestoresState(ts[k].disk);
  }

  // ----- how long the metadata blob lasts -----

  /** A page write that ends before the blob leaves it alone. */
  lemma BlobSurvivesWritesBelow(d: DiskState, start: nat, data: Bytes)
    requires WritePages(d, start, data).Some? && d.metaOffset <= |d.file|
    requires start * PAGE_SIZE + |data| <= d.metaOffset
    ensures ReadMetadataBlob(WritePages(d, start, data).value) == ReadMetadataBlob(d)
  {
    PwriteElsewhere(d.file, start * PAGE_SIZE, data, d.metaOffset, |d.file|);
    WholeTail(d.file, d.metaOffset, |d.file| - d.metaOffset);
    WholeTail(Pwrite(d.file, start * PAGE_SIZE, data), d.metaOffset, |d.file| - d.metaOffset);
  }

  /** Some page content makes a write that ends past the blob's start spoil the blob. */
  lemma SpoilingData(d: DiskState, start: nat, n: nat, blob: Bytes) returns (data: Bytes)
    requires 1 <= start && 0 < n && n % PAGE_SIZE == 0 && d.metaOffset < start * PAGE_SIZE + n
    ensures |data| == n && WritePages(d, start, data).Some?
    ensures ReadMetadataBlob(WritePages(d, start, data).value) != Some(blob)
  {
    var off := start * PAGE_SIZE;
    var at := if off < d.metaOffset then d.metaOffset else off;
    var i: nat := at - d.metaOffset;
    var other: Byte := if i < |blob| && blob[i] == 0 then 1 else 0;
    data := seq(n, _ => other);
    var out := Pwrite(d.file, off, data);
    PwriteHere(d.file, off, data);
    assert out[at] == out[off..off + n][at - off] == other;
    assert out[d.metaOffset..][i] == other;
  }

  function BlobAfter(d: DiskState, start: nat, data: Bytes): Option<Bytes> {
    var written :- WritePages(d, start, data);
    ReadMetadataBlob(written)
  }

  /** Exactly which page writes leave the blob alone whatever they write: those
      that end before it. */
  lemma BlobStableIff(d: DiskState, start: nat, n: nat)
    requires d.metaOffset <= |d.file| && 1 <= start && 0 < n && n % PAGE_SIZE == 0
    ensures (forall data: Bytes :: |data| == n ==> BlobAfter(d, start, data) == ReadMetadataBlob(d))
       <==> start * PAGE_SIZE + n <= d.metaOffset
  {
    if start * PAGE_SIZE + n <= d.metaOffset {
      forall data: Bytes | |data| == n ensures BlobAfter(d, start, data) == ReadMetadataBlob(d) {
        BlobSurvivesWritesBelow(d, start, data);
      }
    } else {
      var data := SpoilingData(d, start, n, ReadMetadataBlob(d).value);
      assert BlobAfter(d, start, data) != ReadMetadataBlob(d);
    }
  }

  /** The state after some operations; one that is not enabled is left out. */
  function After(t: Trace, ops: seq<DiskOp>): Trace {
    if ops == [] then t
    else
      var before, op := After(t, ops[..|ops| - 1]), ops[|ops| - 1];
      if InRange(before.disk) && Enabled(before.disk, op) then Step(before, op) else before
  }

  predicate Legal(t: Trace, ops: seq<DiskOp>) {
    ops == [] ||
    (Legal(t, ops[..|ops| - 1])
     && InRange(After(t, ops[..|ops| - 1]).disk) && Enabled(After(t, ops[..|ops| - 1]).disk, ops[|ops| - 1]))
  }

  /** The same operation, up to the bytes that a page write carries. */
  predicate SameShape(a: DiskOp, b: DiskOp) {
    match (a, b)
    case (Allocate(m), Allocate(n)) => m == n
    case (Write(s, x), Write(r, y)) => s == r && |x| == |y|
    case _ => false
  }

  predicate SameShapes(a: seq<DiskOp>, b: seq<DiskOp>) {
    |a| == |b| && forall i :: 0 <= i < |a| ==> SameShape(a[i], b[i])
  }

  predicate EndsBelow(op: DiskOp, off: nat) { op.Write? ==> op.start * PAGE_SIZE + |op.data| <= off }

  predicate AllBelow(ops: seq<DiskOp>, off: nat) { forall i :: 0 <= i < |ops| ==> EndsBelow(ops[i], off) }

  predicate NoPersist(ops: seq<DiskOp>) { forall i :: 0 <= i < |ops| ==> !ops[i].Persist? }

  /** The blob written last starts here, behind the header. */
  predicate BlobAt(d: DiskState, off: nat) {
    HeaderOnDisk(d) && d.metaOffset == off && HEADER_SIZE <= off <= |d.file|
  }

  /** One operation that is no blob write keeps the blob's place, and its bytes
      when it ends before it. */
  lemma StepKeepsBlob(t: Trace, op: DiskOp, off: nat)
    requires BlobAt(t.disk, off) && Enabled(t.disk, op) && !op.Persist?
    ensures BlobAt(Step(t, op).disk, off)
    ensures EndsBelow(op, off) ==> ReadMetadataBlob(Step(t, op).disk) == ReadMetadataBlob(t.disk)
  {
    var d := t.disk;
    match op
    case Allocate(count) =>
      var grown := d.(nextFree := d.nextFree + count);
      PersistedHeader(grown);
      PersistedElsewhere(grown, off, |d.file|);
      WholeTail(d.file, off, |d.file| - off);
      WholeTail(Persisted(grown).file, off, |d.file| - off);
    case Write(start, data) =>
      PwriteElsewhere(d.file, start * PAGE_SIZE, data, 0, HEADER_SIZE);
      assert WritePages(d, start, data).value.file[..HEADER_SIZE] == d.file[..HEADER_SIZE];
      if EndsBelow(op, off) { BlobSurvivesWritesBelow(d, start, data); }
  }

  lemma {:induction false} RunKeepsBlobPlace(t: Trace, ops: seq<DiskOp>, off: nat)
    requires BlobAt(t.disk, off) && Legal(t, ops) && NoPersist(ops)
    ensures BlobAt(After(t, ops).disk, off)
    ensures AllBelow(ops, off) ==> ReadMetadataBlob(After(t, ops).disk) == ReadMetadataBlob(t.disk)
  {
    if ops != [] {
      var init := ops[..|ops| - 1];
      assert forall i :: 0 <= i < |init| ==> init[i] == ops[i];
      RunKeepsBlobPlace(t, init, off);
      StepKeepsBlob(After(t, init), ops[|ops| - 1], off);
    }
  }

  /** Other bytes in the page writes leave the run legal, and hand out the same pages. */
  lemma {:induction false} SameShapesLegal(t: Trace, ops: seq<DiskOp>, others: seq<DiskOp>, off: nat)
    requires BlobAt(t.disk, off) && Legal(t, ops) && SameShapes(ops, others)
    ensures Legal(t, others) && NoPersist(others) && NoPersist(ops)
    ensures After(t, others).disk.nextFree == After(t, ops).disk.nextFree
  {
    if ops != [] {
      var a, b := ops[..|ops| - 1], others[..|others| - 1];
      assert SameShape(ops[|ops| - 1], others[|others| - 1]);
      assert forall i :: 0 <= i < |a| ==> SameShape(ops[i], others[i]);
      SameShapesLegal(t, a, b, off);
      RunKeepsBlobPlace(t, a, off);
      RunKeepsBlobPlace(t, b, off);
    }
  }

  lemma SameShapesSnoc(a: seq<DiskOp>, b: seq<DiskOp>, x: DiskOp, y: DiskOp)
    requires SameShapes(a, b) && SameShape(x, y)
    ensures SameShapes(a + [x], b + [y])
  {
  }

  lemma AfterSnoc(t: Trace, ops: seq<DiskOp>, op: DiskOp)
    requires Legal(t, ops + [op])
    ensures Legal(t, ops) && InRange(After(t, ops).disk) && Enabled(After(t, ops).disk, op)
    ensures After(t, ops + [op]) == Step(After(t, ops), op)
  {
    assert (ops + [op])[..|ops|] == ops;
  }

  /** The last write of a run spoils the blob. */
  lemma SpoilAtEnd(t: Trace, init: seq<DiskOp>, last: DiskOp, off: nat, blob: Bytes) returns (other: DiskOp)
    requires BlobAt(t.disk, off) && Legal(t, init + [last]) && NoPersist(init + [last]) && !EndsBelow(last, off)
    ensures SameShapes(init + [last], init + [other])
    ensures ReadMetadataBlob(After(t, init + [other]).disk) != Some(blob)
  {
    AfterSnoc(t, init, last);
    assert NoPersist(init) by { assert forall i :: 0 <= i < |init| ==> (init + [last])[i] == init[i]; }
    RunKeepsBlobPlace(t, init, off);
    var data := SpoilingData(After(t, init).disk, last.start, |last.data|, blob);
    other := Write(last.start, data);
    SameShapesSelf(init);
    SameShapesSnoc(init, init, last, other);
    SameShapesLegal(t, init + [last], init + [other], off);
    AfterSnoc(t, init, other);
  }

  /** A spoiled blob stays spoiled under an operation that keeps away from it. */
  lemma SpoiledStays(t: Trace, ops: seq<DiskOp>, before: seq<DiskOp>, last: DiskOp, off: nat, blob: Bytes)
    requires BlobAt(t.disk, off) && Legal(t, ops + [last]) && NoPersist(ops + [last]) && EndsBelow(last, off)
    requires SameShapes(ops, before) && ReadMetadataBlob(After(t, before).disk) != Some(blob)
    ensures SameShapes(ops + [last], before + [last])
    ensures ReadMetadataBlob(After(t, before + [last]).disk) != Some(blob)
  {
    assert !last.Persist? by { assert (ops + [last])[|ops|] == last; }
    SameShapesSnoc(ops, before, last, last);
    SameShapesLegal(t, ops + [last], before + [last], off);
    AfterSnoc(t, before, last);
    assert NoPersist(before) by { assert forall i :: 0 <= i < |before| ==> (before + [last])[i] == before[i]; }
    RunKeepsBlobPlace(t, before, off);
    StepKeepsBlob(After(t, before), last, off);
  }

  /** When some write reaches into the blob, page contents exist that spoil it for good. */
  lemma {:induction false} SpoilingRun(t: Trace, ops: seq<DiskOp>, off: nat, blob: Bytes) returns (others: seq<DiskOp>)
    requires BlobAt(t.disk, off) && Legal(t, ops) && NoPersist(ops) && !AllBelow(ops, off)
    ensures SameShapes(ops, others) && ReadMetadataBlob(After(t, others).disk) != Some(blob)
  {
    var init, last := ops[..|ops| - 1], ops[|ops| - 1];
    SplitLast(ops);
    if EndsBelow(last, off) {
      assert forall i :: 0 <= i < |init| ==> init[i] == ops[i];
      var before := SpoilingRun(t, init, off, blob);
      SpoiledStays(t, init, before, last, off, blob);
      others := before + [last];
    } else {
      var other := SpoilAtEnd(t, init, last, off, blob);
      others := init + [other];
    }
  }

  lemma SameShapesSelf(ops: seq<DiskOp>)
    requires NoPersist(ops)
    ensures SameShapes(ops, ops)
  {
  }

  /** Exactly how long a blob lasts over runs: whatever the pages written later
      hold, it reads back if and only if every later write ended before it. */
  lemma BlobStableOverRunsIff(t: Trace, blob: Bytes, ops: seq<DiskOp>)
    requires Intact(t) && Enabled(t.disk, Persist(blob))
    requires Legal(Step(t, Persist(blob)), ops) && NoPersist(ops)
    ensures var t1 := Step(t, Persist(blob));
      (forall others :: SameShapes(ops, others) ==> ReadMetadataBlob(After(t1, others).disk) == Some(blob))
      <==> AllBelow(ops, t1.disk.metaOffset)
  {
    var t1 := Step(t, Persist(blob));
    var off := t1.disk.metaOffset;
    BlobRoundTrip(t.disk, blob);
    BlobInPlace(t.disk, blob);
    if AllBelow(ops, off) {
      forall others | SameShapes(ops, others) ensures ReadMetadataBlob(After(t1, others).disk) == Some(blob) {
        SameShapesLegal(t1, ops, others, off);
        assert AllBelow(others, off) by {
          forall i | 0 <= i < |others| ensures EndsBelow(others[i], off) {
            assert SameShape(ops[i], others[i]) && EndsBelow(ops[i], off);
          }
        }
        RunKeepsBlobPlace(t1, others, off);
      }
    } else {
      var others := SpoilingRun(t1, ops, off, blob);
    }
  }

  /** The blob is not stable: the first page allocated after it reuses its
      bytes, so once that page is written the blob reads back with a page's length. */
  lemma BlobIsOverwritten(d: DiskState, blob: Bytes, page: Bytes)
    requires HeaderOnDisk(d) && |d.file| <= d.nextFree * PAGE_SIZE && d.nextFree + 1 < TWO32
    requires blob != [] && |blob| < PAGE_SIZE && |page| == PAGE_SIZE
    ensures var d1 := WriteMetadataBlob(d, blob);
      var d2 := AllocatePages(d1, 1).value.0;
      var d3 := WritePages(d2, d.nextFree, page);
      d3.Some? && ReadMetadataBlob(d1) == Some(blob) && ReadMetadataBlob(d3.value) == Some(page)
  {
    BlobInPlace(d, blob);
    BlobRoundTrip(d, blob);
    var off := d.nextFree * PAGE_SIZE;
    var d1 := WriteMetadataBlob(d, blob);
    assert AppendOffset(d) == off && d1.metaOffset == off && |d1.file| == off + |blob|;
    PersistedHeader(d1.(nextFree := d.nextFree + 1));
    TailOverwritten(AllocatePages(d1, 1).value.0, d.nextFree, page);
  }

  lemma TailOverwritten(d: DiskState, p: nat, page: Bytes)
    requires p > 0 && |page| == PAGE_SIZE && d.metaOffset == p * PAGE_SIZE
    requires p * PAGE_SIZE < |d.file| < (p + 1) * PAGE_SIZE
    ensures WritePages(d, p, page).Some? && ReadMetadataBlob(WritePages(d, p, page).value) == Some(page)
  {
    var d' := WritePages(d, p, page).value;
    PwriteHere(d.file, p * PAGE_SIZE, page);
    WholeTail(d'.file, p * PAGE_SIZE, PAGE_SIZE);
  }

  // ----- the manager -----

  class DiskManager {
    var state: DiskState

    constructor Create()
      ensures state == CreateNew() && HeaderOnDisk(state)
    {
      CreateNewIntact();
      state := CreateNew();
    }

    /** Opening an existing file; the caller has looked at its header. */
    constructor OpenExisting(file: Bytes)
      requires Open(file).Some?
      ensures Some(state) == Open(file)
    {
      state := Open(file).value;
    }

    method PersistHeader()
      requires InRange(state)
      modifies this
      ensures state == Persisted(old(state))
    {
      var bytes: Bytes := MAGIC;
      bytes := bytes + EncodeU64(state.metaOffset);
      bytes := WriteU32(bytes, state.nextFree);
      state := state.(file := Pwrite(state.file, 0, bytes));
    }

    method Allocate(count: nat) returns (start: Option<nat>)
      requires InRange(state) && state.nextFree + count < TWO32
      modifies this
      ensures match AllocatePages(old(state), count)
              case None => start.None? && state == old(state)
              case Some(p) => start == Some(p.1) && state == p.0
    {
      if count == 0 {
        return None;
      }
      var first := state.nextFree;
      state := state.(nextFree := first + count);
      PersistHeader();
      start := Some(first);
    }

    method WriteAt(start: nat, data: Bytes) returns (ok: bool)
      modifies this
      ensures match WritePages(old(state), start, data)
              case None => !ok && state == old(state)
              case Some(d) => ok && state == d
    {
      if start == 0 || data == [] || |data| % PAGE_SIZE != 0 {
        return false;
      }
      state := state.(file := Pwrite(state.file, start * PAGE_SIZE, data));
      ok := true;
    }

    method WriteBlob(blob: Bytes)
      requires InRange(state) && AppendOffset(state) < TWO64
      modifies this
      ensures state == WriteMetadataBlob(old(state), blob)
    {
      var pageRegionEnd := state.nextFree * PAGE_SIZE;
      var appendOffset := if |state.file| < pageRegionEnd then pageRegionEnd else |state.file|;
      if blob != [] {
        state := state.(file := Pwrite(state.file, appendOffset, blob));
      }
      state := state.(metaOffset := appendOffset);
      PersistHeader();
    }
  }
}
