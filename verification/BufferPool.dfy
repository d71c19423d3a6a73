/** The pinning buffer pool over the database file: what a client sees of a
    page never depends on whether, or when, the page is cached. */
module BufferPool {
  import opened Seqs
  import opened Types
  import opened ByteIO
  import opened Disk
  import opened Replacer

  datatype FrameMeta = FrameMeta(pageId: nat, pins: nat, dirty: bool, inUse: bool)

  type Frames = seq<FrameMeta>

  datatype Pool = Pool(
    frames: Frames, pages: seq<Bytes>, table: map<nat, nat>, freeList: seq<nat>,
    lru: Lru, disk: DiskState)

  /** Page 0 is the header; a page must lie inside the file to be read. */
  predicate PageInFile(file: Bytes, p: nat) { 1 <= p && (p + 1) * PAGE_SIZE <= |file| }

  // ----- the invariant, part by part -----

  /** The page table and the frames' page ids are inverse to each other. */
  ghost predicate TableInverse(frames: Frames, table: map<nat, nat>) {
    && (forall p :: p in table ==> table[p] < |frames| && frames[table[p]].inUse && frames[table[p]].pageId == p)
    && (forall f :: 0 <= f < |frames| && frames[f].inUse ==> frames[f].pageId in table && table[frames[f].pageId] == f)
  }

  /** Free frames are listed once each; `hole` is a frame between owners. */
  ghost predicate FreeListed(frames: Frames, freeList: seq<nat>, hole: Option<nat>) {
    && (forall f: nat :: f in freeList <==> f < |frames| && !frames[f].inUse && hole != Some(f))
    && (forall i, j :: 0 <= i < j < |freeList| ==> freeList[i] != freeList[j])
  }

  /** The replacer knows exactly the frames in use; the unpinned ones are evictable. */
  ghost predicate EntriesTrack(frames: Frames, entries: map<Frame, bool>) {
    && (forall f :: f in entries ==> 0 <= f < |frames| && frames[f].inUse && entries[f] == (frames[f].pins == 0))
    && (forall f :: 0 <= f < |frames| && frames[f].inUse ==> f in entries)
  }

  /** Changes not yet announced by a dirty unpin are under a pin. */
  ghost predicate UnsavedPinned(frames: Frames, table: map<nat, nat>, unsaved: set<nat>) {
    forall p :: p in unsaved ==> p in table && table[p] < |frames| && frames[table[p]].pins > 0
  }

  /** A frame is the file's page, unless it is dirty or a pin holder has changed it. */
  predicate FrameCurrent(m: FrameMeta, page: Bytes, file: Bytes, unsaved: set<nat>) {
    m.inUse ==>
      && PageInFile(file, m.pageId) && |page| == PAGE_SIZE
      && (!m.dirty && m.pageId !in unsaved ==> page == PageAt(file, m.pageId))
  }

  ghost predicate FramesCurrent(frames: Frames, pages: seq<Bytes>, file: Bytes, unsaved: set<nat>) {
    |frames| == |pages| && forall f :: 0 <= f < |frames| ==> FrameCurrent(frames[f], pages[f], file, unsaved)
  }

  ghost predicate PoolSound(pool: Pool, unsaved: set<nat>, hole: Option<nat>) {
    && TableInverse(pool.frames, pool.table)
    && FreeListed(pool.frames, pool.freeList, hole)
    && EntriesTrack(pool.frames, pool.lru.entries)
    && UnsavedPinned(pool.frames, pool.table, unsaved)
    && FramesCurrent(pool.frames, pool.pages, pool.disk.file, unsaved)
    && (hole.Some? ==> hole.value < |pool.frames| && !pool.frames[hole.value].inUse)
  }

  /** The invariant between calls. */
  ghost predicate Coherent(pool: Pool, unsaved: set<nat>) { Sound(pool.lru) && PoolSound(pool, unsaved, None) }

  /** What a client sees: the frame if the page is cached, else the file. */
  function ViewOf(pages: seq<Bytes>, table: map<nat, nat>, file: Bytes, p: nat): Bytes {
    if p in table && table[p] < |pages| then pages[table[p]]
    else if PageInFile(file, p) then PageAt(file, p)
    else []
  }

  function View(pool: Pool, p: nat): Bytes { ViewOf(pool.pages, pool.table, pool.disk.file, p) }

  ghost predicate SameView(a: Pool, b: Pool) {
    && |a.disk.file| == |b.disk.file|
    && forall p: nat :: View(a, p) == View(b, p)
  }

  // ----- a frame's pins or dirty flag change -----

  predicate SameOwner(m: FrameMeta, m': FrameMeta) { m.inUse && m'.inUse && m.pageId == m'.pageId }

  lemma MetaKeepsTable(frames: Frames, table: map<nat, nat>, f: nat, m: FrameMeta)
    requires TableInverse(frames, table) && f < |frames| && SameOwner(frames[f], m)
    ensures TableInverse(frames[f := m], table)
  {
  }

  lemma MetaKeepsFreeList(frames: Frames, freeList: seq<nat>, hole: Option<nat>, f: nat, m: FrameMeta)
    requires FreeListed(frames, freeList, hole) && f < |frames| && SameOwner(frames[f], m)
    ensures FreeListed(frames[f := m], freeList, hole)
  {
  }

  lemma MetaTracks(frames: Frames, entries: map<Frame, bool>, f: nat, m: FrameMeta)
    requires EntriesTrack(frames, entries) && f < |frames| && m.inUse
    ensures EntriesTrack(frames[f := m], entries[f := m.pins == 0])
  {
  }

  lemma MetaCurrent(frames: Frames, table: map<nat, nat>, pages: seq<Bytes>, file: Bytes,
                    unsaved: set<nat>, still: set<nat>, f: nat, m: FrameMeta)
    requires TableInverse(frames, table) && FramesCurrent(frames, pages, file, unsaved)
    requires f < |frames| && SameOwner(frames[f], m) && (frames[f].dirty ==> m.dirty)
    requires still == unsaved || (m.dirty && still == unsaved - {m.pageId})
    ensures FramesCurrent(frames[f := m], pages, file, still)
  {
    forall g | 0 <= g < |frames| ensures FrameCurrent(frames[f := m][g], pages[g], file, still) {
      assert FrameCurrent(frames[g], pages[g], file, unsaved);
      if frames[g].inUse { assert table[frames[g].pageId] == g && table[frames[f].pageId] == f; }
    }
  }

  lemma MetaUnsaved(frames: Frames, table: map<nat, nat>, unsaved: set<nat>, still: set<nat>, f: nat, m: FrameMeta)
    requires TableInverse(frames, table) && UnsavedPinned(frames, table, unsaved) && still <= unsaved
    requires f < |frames| && SameOwner(frames[f], m) && (m.pins > 0 || m.pageId !in still)
    ensures UnsavedPinned(frames[f := m], table, still)
  {
  }

  // ----- the replacer side -----

  lemma RecordedKnows(lru: Lru, f: Frame)
    requires Sound(lru)
    ensures f in Recorded(lru, f).entries
    ensures Recorded(lru, f).entries == if f in lru.entries then lru.entries else lru.entries[f := false]
  {
    assert f in lru.position <==> f in lru.position.Keys;
    assert f in lru.entries <==> f in lru.entries.Keys;
  }

  /** RecordAccess followed by SetEvictable(false). */
  function Touched(lru: Lru, f: Frame): Lru
    requires Sound(lru)
  {
    RecordedSound(lru, f);
    RecordedKnows(lru, f);
    MarkedSound(Recorded(lru, f), f, false);
    Marked(Recorded(lru, f), f, false)
  }

  lemma TouchedSound(lru: Lru, f: Frame)
    requires Sound(lru)
    ensures Sound(Touched(lru, f)) && Touched(lru, f).entries == lru.entries[f := false]
  {
    RecordedSound(lru, f);
    RecordedKnows(lru, f);
    MarkedSound(Recorded(lru, f), f, false);
  }

  // ----- a frame's pins, dirty flag and replacer entry change -----

  function PinsIn(frames: Frames, table: map<nat, nat>, p: nat): nat {
    if p in table && table[p] < |frames| then frames[table[p]].pins else 0
  }

  function PinsOf(pool: Pool, p: nat): nat { PinsIn(pool.frames, pool.table, p) }

  function WithMeta(pool: Pool, f: nat, m: FrameMeta, lru: Lru): Pool
    requires f < |pool.frames|
  {
    pool.(frames := pool.frames[f := m], lru := lru)
  }

  lemma MetaSound(pool: Pool, unsaved: set<nat>, still: set<nat>, f: nat, m: FrameMeta, lru: Lru)
    requires PoolSound(pool, unsaved, None)
    requires f < |pool.frames| && SameOwner(pool.frames[f], m)
    requires still == unsaved || (m.dirty && still == unsaved - {m.pageId})
    requires m.pins > 0 || m.pageId !in still
    requires pool.frames[f].dirty ==> m.dirty
    requires lru.entries == pool.lru.entries[f := m.pins == 0]
    ensures PoolSound(WithMeta(pool, f, m, lru), still, None)
  {
    MetaKeepsTable(pool.frames, pool.table, f, m);
    MetaKeepsFreeList(pool.frames, pool.freeList, None, f, m);
    MetaTracks(pool.frames, pool.lru.entries, f, m);
    MetaUnsaved(pool.frames, pool.table, unsaved, still, f, m);
    MetaCurrent(pool.frames, pool.table, pool.pages, pool.disk.file, unsaved, still, f, m);
  }

  lemma MetaView(pool: Pool, f: nat, m: FrameMeta, lru: Lru)
    requires f < |pool.frames|
    ensures SameView(pool, WithMeta(pool, f, m, lru))
  {
  }

  lemma MetaPins(pool: Pool, p: nat, m: FrameMeta, lru: Lru)
    requires TableInverse(pool.frames, pool.table) && p in pool.table
    ensures PinsOf(WithMeta(pool, pool.table[p], m, lru), p) == m.pins
    ensures forall q: nat :: q != p ==> PinsOf(WithMeta(pool, pool.table[p], m, lru), q) == PinsOf(pool, q)
  {
  }

  // ----- a frame is found -----

  /** Takes the last free frame. */
  function PopFree(pool: Pool): Pool
    requires pool.freeList != []
  {
    pool.(freeList := pool.freeList[..|pool.freeList| - 1])
  }

  lemma PopFreeListed(frames: Frames, freeList: seq<nat>)
    requires FreeListed(frames, freeList, None) && freeList != []
    ensures var f := freeList[|freeList| - 1];
      f < |frames| && !frames[f].inUse && FreeListed(frames, freeList[..|freeList| - 1], Some(f))
  {
    var n := |freeList| - 1;
    var f := freeList[n];
    assert f in freeList;
    SplitLast(freeList);
    forall g: nat ensures g in freeList[..n] <==> g < |frames| && !frames[g].inUse && Some(f) != Some(g) {
      assert g in freeList <==> g in freeList[..n] || g == f;
      if g in freeList[..n] { var i :| 0 <= i < n && freeList[i] == g; }
    }
  }

  /** The file after writing back what a frame holds, if it is dirty. */
  function WrittenBack(disk: DiskState, m: FrameMeta, page: Bytes): DiskState {
    if m.dirty then
      match WritePages(disk, m.pageId, page) case Some(d) => d case None => disk
    else disk
  }

  lemma WriteBackView(disk: DiskState, m: FrameMeta, page: Bytes, unsaved: set<nat>, p: nat)
    requires m.inUse && FrameCurrent(m, page, disk.file, unsaved) && m.pageId !in unsaved
    ensures |WrittenBack(disk, m, page).file| == |disk.file|
    ensures PageInFile(disk.file, p) ==>
      PageAt(WrittenBack(disk, m, page).file, p) == if p == m.pageId then page else PageAt(disk.file, p)
  {
    if m.dirty {
      WritePage(disk.file, m.pageId, page, p);
      assert PageOf(page, 0) == page;
    }
  }

  /** Evicts the page in frame `f`, writing it back if dirty. */
  function Vacated(pool: Pool, f: nat, lru: Lru): Pool
    requires f < |pool.frames| == |pool.pages|
  {
    pool.(frames := pool.frames[f := pool.frames[f].(inUse := false)], table := pool.table - {pool.frames[f].pageId},
          lru := lru, disk := WrittenBack(pool.disk, pool.frames[f], pool.pages[f]))
  }

  lemma VacateTable(frames: Frames, table: map<nat, nat>, f: nat)
    requires TableInverse(frames, table) && f < |frames| && frames[f].inUse
    ensures TableInverse(frames[f := frames[f].(inUse := false)], table - {frames[f].pageId})
  {
  }

  lemma VacateFreeList(frames: Frames, freeList: seq<nat>, f: nat)
    requires FreeListed(frames, freeList, None) && f < |frames| && frames[f].inUse
    ensures FreeListed(frames[f := frames[f].(inUse := false)], freeList, Some(f))
  {
  }

  lemma VacateTracks(frames: Frames, entries: map<Frame, bool>, f: nat)
    requires EntriesTrack(frames, entries) && f < |frames|
    ensures EntriesTrack(frames[f := frames[f].(inUse := false)], entries - {f})
  {
  }

  lemma VacateUnsaved(frames: Frames, table: map<nat, nat>, unsaved: set<nat>, f: nat)
    requires TableInverse(frames, table) && UnsavedPinned(frames, table, unsaved)
    requires f < |frames| && frames[f].inUse && frames[f].pins == 0
    ensures frames[f].pageId !in unsaved
    ensures UnsavedPinned(frames[f := frames[f].(inUse := false)], table - {frames[f].pageId}, unsaved)
  {
  }

  lemma VacateCurrent(frames: Frames, table: map<nat, nat>, pages: seq<Bytes>, disk: DiskState, unsaved: set<nat>,
                      f: nat)
    requires TableInverse(frames, table) && FramesCurrent(frames, pages, disk.file, unsaved)
    requires f < |frames| && frames[f].inUse && frames[f].pageId !in unsaved
    ensures FramesCurrent(frames[f := frames[f].(inUse := false)], pages, WrittenBack(disk, frames[f], pages[f]).file,
      unsaved)
  {
    var file' := WrittenBack(disk, frames[f], pages[f]).file;
    assert FrameCurrent(frames[f], pages[f], disk.file, unsaved);
    forall g | 0 <= g < |frames| && g != f ensures FrameCurrent(frames[g], pages[g], file', unsaved) {
      WriteBackView(disk, frames[f], pages[f], unsaved, frames[g].pageId);
      if frames[g].inUse { assert table[frames[g].pageId] == g && table[frames[f].pageId] == f; }
    }
  }

  lemma VacateView(frames: Frames, table: map<nat, nat>, pages: seq<Bytes>, disk: DiskState, unsaved: set<nat>, f: nat,
                   p: nat)
    requires TableInverse(frames, table) && FramesCurrent(frames, pages, disk.file, unsaved)
    requires f < |frames| && frames[f].inUse && frames[f].pageId !in unsaved
    ensures |WrittenBack(disk, frames[f], pages[f]).file| == |disk.file|
    ensures ViewOf(pages, table - {frames[f].pageId}, WrittenBack(disk, frames[f], pages[f]).file, p) ==
      ViewOf(pages, table, disk.file, p)
  {
    assert FrameCurrent(frames[f], pages[f], disk.file, unsaved);
    WriteBackView(disk, frames[f], pages[f], unsaved, p);
  }

  /** The victim the replacer names is an unpinned frame in use. */
  lemma VictimIsFree(frames: Frames, lru: Lru, f: Frame)
    requires Sound(lru) && EntriesTrack(frames, lru.entries) && Victim(lru) == Some(f)
    ensures 0 <= f < |frames| && frames[f].inUse && frames[f].pins == 0
    ensures f in lru.position && lru.evictableCount > 0
    ensures Sound(Removed(lru, f))
  {
    VictimIsOldest(lru);
    assert f in lru.entries && lru.entries[f];
    RemovedSound(lru, f);
  }

  /** Evicting an unpinned page, dirty or clean, is invisible. */
  lemma VacatedSound(pool: Pool, unsaved: set<nat>, f: nat, lru: Lru)
    requires PoolSound(pool, unsaved, None)
    requires f < |pool.frames| && pool.frames[f].inUse && pool.frames[f].pins == 0
    requires lru.entries == pool.lru.entries - {f}
    ensures PoolSound(Vacated(pool, f, lru), unsaved, Some(f)) && SameView(pool, Vacated(pool, f, lru))
  {
    VacateTable(pool.frames, pool.table, f);
    VacateFreeList(pool.frames, pool.freeList, f);
    VacateTracks(pool.frames, pool.lru.entries, f);
    VacateUnsaved(pool.frames, pool.table, unsaved, f);
    VacateCurrent(pool.frames, pool.table, pool.pages, pool.disk, unsaved, f);
    VacateView(pool.frames, pool.table, pool.pages, pool.disk, unsaved, f, 0);
    forall p: nat ensures View(Vacated(pool, f, lru), p) == View(pool, p) {
      VacateView(pool.frames, pool.table, pool.pages, pool.disk, unsaved, f, p);
    }
  }

  // ----- a page is read into a vacant frame -----

  function Loaded(pool: Pool, f: nat, p: nat, lru: Lru): Pool
    requires f < |pool.frames| == |pool.pages| && PageInFile(pool.disk.file, p)
  {
    pool.(frames := pool.frames[f := FrameMeta(p, 1, false, true)], pages := pool.pages[f := PageAt(pool.disk.file, p)],
          table := pool.table[p := f], lru := lru)
  }

  lemma LoadTable(frames: Frames, table: map<nat, nat>, f: nat, p: nat)
    requires TableInverse(frames, table) && f < |frames| && !frames[f].inUse && p !in table
    ensures TableInverse(frames[f := FrameMeta(p, 1, false, true)], table[p := f])
  {
  }

  lemma LoadFreeList(frames: Frames, freeList: seq<nat>, f: nat, m: FrameMeta)
    requires FreeListed(frames, freeList, Some(f)) && f < |frames| && m.inUse
    ensures FreeListed(frames[f := m], freeList, None)
  {
  }

  lemma LoadUnsaved(frames: Frames, table: map<nat, nat>, unsaved: set<nat>, f: nat, p: nat, m: FrameMeta)
    requires TableInverse(frames, table) && UnsavedPinned(frames, table, unsaved) && f < |frames| && !frames[f].inUse &&
      p !in table
    ensures UnsavedPinned(frames[f := m], table[p := f], unsaved) && p !in unsaved
  {
  }

  lemma LoadCurrent(frames: Frames, pages: seq<Bytes>, file: Bytes, unsaved: set<nat>, f: nat, p: nat)
    requires FramesCurrent(frames, pages, file, unsaved) && f < |frames| && PageInFile(file, p)
    ensures FramesCurrent(frames[f := FrameMeta(p, 1, false, true)], pages[f := PageAt(file, p)], file, unsaved)
  {
  }

  lemma LoadView(frames: Frames, table: map<nat, nat>, pages: seq<Bytes>, file: Bytes, f: nat, p: nat, q: nat)
    requires TableInverse(frames, table) && f < |frames| == |pages| && !frames[f].inUse
    requires p !in table && PageInFile(file, p)
    ensures ViewOf(pages[f := PageAt(file, p)], table[p := f], file, q) == ViewOf(pages, table, file, q)
  {
    if q in table { assert table[q] != f; }
  }

  lemma LoadPins(frames: Frames, table: map<nat, nat>, f: nat, p: nat, m: FrameMeta)
    requires TableInverse(frames, table) && f < |frames| && !frames[f].inUse && p !in table
    ensures PinsIn(frames[f := m], table[p := f], p) == m.pins
    ensures forall q: nat :: q != p ==> PinsIn(frames[f := m], table[p := f], q) == PinsIn(frames, table, q)
  {
  }

  /** Loading a page into a vacant frame shows what the file held. */
  lemma LoadedSound(pool: Pool, unsaved: set<nat>, f: nat, p: nat, lru: Lru)
    requires PoolSound(pool, unsaved, Some(f)) && p !in pool.table && PageInFile(pool.disk.file, p)
    requires lru.entries == pool.lru.entries[f := false]
    ensures PoolSound(Loaded(pool, f, p, lru), unsaved, None)
  {
    var m := FrameMeta(p, 1, false, true);
    LoadTable(pool.frames, pool.table, f, p);
    LoadFreeList(pool.frames, pool.freeList, f, m);
    MetaTracks(pool.frames, pool.lru.entries, f, m);
    LoadUnsaved(pool.frames, pool.table, unsaved, f, p, m);
    LoadCurrent(pool.frames, pool.pages, pool.disk.file, unsaved, f, p);
  }

  lemma LoadedView(pool: Pool, f: nat, p: nat, lru: Lru)
    requires TableInverse(pool.frames, pool.table) && f < |pool.frames| == |pool.pages| && !pool.frames[f].inUse
    requires p !in pool.table && PageInFile(pool.disk.file, p)
    ensures SameView(pool, Loaded(pool, f, p, lru))
    ensures PinsOf(Loaded(pool, f, p, lru), p) == 1
    ensures forall q: nat :: q != p ==> PinsOf(Loaded(pool, f, p, lru), q) == PinsOf(pool, q)
  {
    LoadPins(pool.frames, pool.table, f, p, FrameMeta(p, 1, false, true));
    forall q: nat ensures View(Loaded(pool, f, p, lru), q) == View(pool, q) {
      LoadView(pool.frames, pool.table, pool.pages, pool.disk.file, f, p, q);
    }
  }

  lemma PopFreeSound(pool: Pool, unsaved: set<nat>)
    requires PoolSound(pool, unsaved, None) && pool.freeList != []
    ensures PoolSound(PopFree(pool), unsaved, Some(pool.freeList[|pool.freeList| - 1])) && SameView(pool, PopFree(pool))
  {
    PopFreeListed(pool.frames, pool.freeList);
  }

  // ----- FindFreeFrame -----

  /** A frame to use, and the replacer without it: the last free frame, else the replacer's victim. */
  ghost function FreeFrame(pool: Pool): Option<(nat, Lru)>
    requires Sound(pool.lru) && EntriesTrack(pool.frames, pool.lru.entries)
  {
    if pool.freeList != [] then Some((pool.freeList[|pool.freeList| - 1], pool.lru))
    else
      match Victim(pool.lru)
      case None => None
      case Some(f) =>
        VictimIsFree(pool.frames, pool.lru, f);
        Some((f, Removed(pool.lru, f)))
  }

  /** The pool after frame `f` has been taken from the free list or vacated. */
  function Taken(pool: Pool, f: nat, lru: Lru): Pool
    requires f < |pool.frames| == |pool.pages|
  {
    if pool.freeList != [] then PopFree(pool) else Vacated(pool, f, lru)
  }

  ghost predicate AllPinned(frames: Frames) {
    forall f :: 0 <= f < |frames| ==> frames[f].inUse && frames[f].pins > 0
  }

  lemma AllPinnedIff(frames: Frames, freeList: seq<nat>, entries: map<Frame, bool>)
    requires FreeListed(frames, freeList, None) && freeList == [] && EntriesTrack(frames, entries)
    ensures EvictableFrames(entries) == {} <==> AllPinned(frames)
  {
    forall f | 0 <= f < |frames| ensures frames[f].inUse { assert f !in freeList; }
    if EvictableFrames(entries) == {} {
      forall f | 0 <= f < |frames| ensures frames[f].pins > 0 {
        assert f in entries && f !in EvictableFrames(entries);
      }
    }
    if AllPinned(frames) {
      forall f | f in entries ensures !entries[f] { }
      assert EvictableFrames(entries) == {};
    }
  }

  /** A frame is to be had unless all are pinned. */
  lemma FreeFrameIff(pool: Pool, unsaved: set<nat>)
    requires Coherent(pool, unsaved)
    ensures FreeFrame(pool).None? <==> AllPinned(pool.frames)
  {
    if pool.freeList != [] {
      assert pool.freeList[|pool.freeList| - 1] in pool.freeList;
    } else {
      VictimIsOldest(pool.lru);
      AllPinnedIff(pool.frames, pool.freeList, pool.lru.entries);
    }
  }

  ghost predicate PinsStay(pool: Pool, pool': Pool) {
    forall q: nat :: PinsOf(pool', q) == PinsOf(pool, q)
  }

  lemma VacatePins(frames: Frames, table: map<nat, nat>, f: nat)
    requires TableInverse(frames, table) && f < |frames| && frames[f].inUse && frames[f].pins == 0
    ensures forall q: nat ::
      PinsIn(frames[f := frames[f].(inUse := false)], table - {frames[f].pageId}, q) == PinsIn(frames, table, q)
  {
  }

  /** What taking a frame guarantees. */
  ghost predicate FrameFound(pool: Pool, unsaved: set<nat>, pool': Pool, f: nat) {
    && PoolSound(pool', unsaved, Some(f)) && SameView(pool, pool') && PinsStay(pool, pool')
    && |pool'.frames| == |pool.frames| && pool'.table.Keys <= pool.table.Keys &&
      pool'.disk.nextFree == pool.disk.nextFree
  }

  lemma VacatedFound(pool: Pool, unsaved: set<nat>, f: nat, lru: Lru)
    requires PoolSound(pool, unsaved, None)
    requires f < |pool.frames| && pool.frames[f].inUse && pool.frames[f].pins == 0
    requires lru.entries == pool.lru.entries - {f}
    ensures FrameFound(pool, unsaved, Vacated(pool, f, lru), f)
  {
    VacatedSound(pool, unsaved, f, lru);
    VacatePins(pool.frames, pool.table, f);
  }

  /** A frame in use that nobody holds. */
  predicate Vacatable(pool: Pool, f: nat) { f < |pool.frames| && pool.frames[f].inUse && pool.frames[f].pins == 0 }

  lemma TakenFound(pool: Pool, unsaved: set<nat>, f: nat, lru: Lru)
    requires PoolSound(pool, unsaved, None)
    requires if pool.freeList != [] then f == pool.freeList[|pool.freeList| - 1] && lru == pool.lru
             else Vacatable(pool, f) && lru.entries == pool.lru.entries - {f}
    ensures f < |pool.frames|
    ensures FrameFound(pool, unsaved, Taken(pool, f, lru), f) && Taken(pool, f, lru).lru == lru
  {
    if pool.freeList != [] { PopFreeSound(pool, unsaved); } else { VacatedFound(pool, unsaved, f, lru); }
  }

  /** The frame found is vacant, or vacating it keeps the file's length. */
  lemma FrameIsTakeable(pool: Pool, unsaved: set<nat>, f: nat, lru: Lru)
    requires PoolSound(pool, unsaved, None)
    requires if pool.freeList != [] then f == pool.freeList[|pool.freeList| - 1] && lru == pool.lru
             else Vacatable(pool, f) && lru.entries == pool.lru.entries - {f}
    ensures f < |pool.frames| == |pool.pages|
    ensures pool.freeList != [] ==> !pool.frames[f].inUse
    ensures pool.frames[f].inUse ==> |WrittenBack(pool.disk, pool.frames[f], pool.pages[f]).file| == |pool.disk.file|
  {
    if pool.freeList != [] {
      assert f in pool.freeList;
    } else {
      VacateUnsaved(pool.frames, pool.table, unsaved, f);
      VacateView(pool.frames, pool.table, pool.pages, pool.disk, unsaved, f, 0);
    }
  }

  lemma FreeFrameSound(pool: Pool)
    requires Sound(pool.lru) && EntriesTrack(pool.frames, pool.lru.entries) && FreeFrame(pool).Some?
    ensures var r := FreeFrame(pool).value;
      && Sound(r.1)
      && if pool.freeList != [] then r.0 == pool.freeList[|pool.freeList| - 1] && r.1 == pool.lru
         else Vacatable(pool, r.0) && r.1.entries == pool.lru.entries - {r.0}
  {
    if pool.freeList == [] { VictimIsFree(pool.frames, pool.lru, Victim(pool.lru).value); }
  }

  // ----- FetchPage -----

  function PinAdded(m: FrameMeta): FrameMeta { m.(pins := m.pins + 1) }

  /** FetchPage. None is the exception when no frame can be had. */
  ghost function Fetch(pool: Pool, unsaved: set<nat>, p: nat): Option<Pool>
    requires Coherent(pool, unsaved) && PageInFile(pool.disk.file, p)
  {
    if p in pool.table then
      Some(WithMeta(pool, pool.table[p], PinAdded(pool.frames[pool.table[p]]), Touched(pool.lru, pool.table[p])))
    else
      match FreeFrame(pool)
      case None => None
      case Some(r) =>
        FreeFrameSound(pool);
        TakenFound(pool, unsaved, r.0, r.1);
        Some(Loaded(Taken(pool, r.0, r.1), r.0, p, Touched(r.1, r.0)))
  }

  lemma SameViewTransitive(a: Pool, b: Pool, c: Pool)
    requires SameView(a, b) && SameView(b, c)
    ensures SameView(a, c)
  {
    forall p: nat ensures View(a, p) == View(c, p) { assert View(a, p) == View(b, p); }
  }

  /** FetchPage fails exactly when the page is not cached and every frame is pinned. */
  lemma FetchFailsIff(pool: Pool, unsaved: set<nat>, p: nat)
    requires Coherent(pool, unsaved) && PageInFile(pool.disk.file, p)
    ensures Fetch(pool, unsaved, p).None? <==> p !in pool.table && AllPinned(pool.frames)
  {
    FreeFrameIff(pool, unsaved);
  }

  /** The fetched page gains a pin and every other page keeps its own. */
  ghost predicate PinsKept(pool: Pool, pool': Pool, p: nat) {
    && PinsOf(pool', p) == PinsOf(pool, p) + 1
    && forall q: nat :: q != p ==> PinsOf(pool', q) == PinsOf(pool, q)
  }

  /** What fetching a page guarantees: the view of every page, no pinned page
      evicted, and the page cached and pinned once more. */
  ghost predicate Fetched(pool: Pool, pool': Pool, p: nat) {
    && SameView(pool, pool') && PinsKept(pool, pool', p)
    && p in pool'.table && pool'.table.Keys <= pool.table.Keys + {p}
    && |pool'.frames| == |pool.frames| && pool'.disk.nextFree == pool.disk.nextFree
  }

  lemma HitFetched(pool: Pool, p: nat, lru: Lru)
    requires TableInverse(pool.frames, pool.table) && p in pool.table
    ensures Fetched(pool, WithMeta(pool, pool.table[p], PinAdded(pool.frames[pool.table[p]]), lru), p)
  {
    var m := PinAdded(pool.frames[pool.table[p]]);
    MetaView(pool, pool.table[p], m, lru);
    MetaPins(pool, p, m, lru);
  }

  lemma LoadFetched(pool: Pool, unsaved: set<nat>, mid: Pool, f: nat, p: nat, lru: Lru)
    requires FrameFound(pool, unsaved, mid, f) && p !in pool.table && PageInFile(mid.disk.file, p)
    ensures Fetched(pool, Loaded(mid, f, p, lru), p)
  {
    assert p !in mid.table.Keys;
    LoadedView(mid, f, p, lru);
    SameViewTransitive(pool, mid, Loaded(mid, f, p, lru));
  }

  lemma FetchHit(pool: Pool, unsaved: set<nat>, p: nat, lru: Lru)
    requires PoolSound(pool, unsaved, None) && p in pool.table &&
      lru.entries == pool.lru.entries[pool.table[p] := false]
    ensures var pool' := WithMeta(pool, pool.table[p], PinAdded(pool.frames[pool.table[p]]), lru);
      PoolSound(pool', unsaved, None) && Fetched(pool, pool', p)
  {
    MetaSound(pool, unsaved, unsaved, pool.table[p], PinAdded(pool.frames[pool.table[p]]), lru);
    HitFetched(pool, p, lru);
  }

  lemma FetchMiss(pool: Pool, unsaved: set<nat>, f: nat, mid: Pool, p: nat, lru: Lru)
    requires FrameFound(pool, unsaved, mid, f) && p !in pool.table && PageInFile(mid.disk.file, p)
    requires lru.entries == mid.lru.entries[f := false]
    ensures PoolSound(Loaded(mid, f, p, lru), unsaved, None) && Fetched(pool, Loaded(mid, f, p, lru), p)
  {
    assert p !in mid.table.Keys;
    LoadedSound(mid, unsaved, f, p, lru);
    LoadFetched(pool, unsaved, mid, f, p, lru);
  }

  lemma FetchCoherent(pool: Pool, unsaved: set<nat>, p: nat)
    requires Coherent(pool, unsaved) && PageInFile(pool.disk.file, p) && Fetch(pool, unsaved, p).Some?
    ensures Coherent(Fetch(pool, unsaved, p).value, unsaved) && Fetched(pool, Fetch(pool, unsaved, p).value, p)
  {
    if p in pool.table {
      TouchedSound(pool.lru, pool.table[p]);
      FetchHit(pool, unsaved, p, Touched(pool.lru, pool.table[p]));
    } else {
      FreeFrameSound(pool);
      var r := FreeFrame(pool).value;
      TakenFound(pool, unsaved, r.0, r.1);
      TouchedSound(r.1, r.0);
      FetchMiss(pool, unsaved, r.0, Taken(pool, r.0, r.1), p, Touched(r.1, r.0));
    }
  }

  lemma TakenKeepsPinned(pool: Pool, f: nat, lru: Lru, q: nat)
    requires TableInverse(pool.frames, pool.table) && PinsOf(pool, q) > 0 && f < |pool.frames| == |pool.pages|
    requires pool.freeList == [] ==> pool.frames[f].inUse && pool.frames[f].pins == 0
    ensures q in Taken(pool, f, lru).table && Taken(pool, f, lru).table[q] == pool.table[q]
  {
  }

  lemma MissKeepsPinned(pool: Pool, unsaved: set<nat>, q: nat)
    requires Coherent(pool, unsaved) && FreeFrame(pool).Some? && PinsOf(pool, q) > 0
    ensures var r := FreeFrame(pool).value;
      r.0 < |pool.frames| == |pool.pages| && q in Taken(pool, r.0, r.1).table &&
        Taken(pool, r.0, r.1).table[q] == pool.table[q]
  {
    FreeFrameSound(pool);
    var r := FreeFrame(pool).value;
    FrameIsTakeable(pool, unsaved, r.0, r.1);
    TakenKeepsPinned(pool, r.0, r.1, q);
  }

  /** A pinned page stays in its frame, so a pointer to its bytes stays good. */
  lemma PinnedStaysPut(pool: Pool, unsaved: set<nat>, p: nat, q: nat)
    requires Coherent(pool, unsaved) && PageInFile(pool.disk.file, p) && Fetch(pool, unsaved, p).Some?
    requires PinsOf(pool, q) > 0
    ensures q in Fetch(pool, unsaved, p).value.table && Fetch(pool, unsaved, p).value.table[q] == pool.table[q]
  {
    if p !in pool.table {
      assert FreeFrame(pool).Some?;
      MissKeepsPinned(pool, unsaved, q);
    }
  }

  // ----- UnpinPage -----

  function PinTaken(m: FrameMeta, dirty: bool): FrameMeta
    requires m.pins > 0
  {
    m.(pins := m.pins - 1, dirty := m.dirty || dirty)
  }

  /** The replacer hears of the unpin only when it was the last one. */
  ghost function Released(lru: Lru, f: Frame, last: bool): Lru
    requires Sound(lru) && f in lru.entries
  {
    MarkedSound(lru, f, true);
    if last then Marked(lru, f, true) else lru
  }

  lemma ReleasedSound(lru: Lru, f: Frame, last: bool)
    requires Sound(lru) && f in lru.entries && !lru.entries[f]
    ensures Sound(Released(lru, f, last)) && Released(lru, f, last).entries == lru.entries[f := last]
  {
    MarkedSound(lru, f, true);
    if !last { assert lru.entries[f := false] == lru.entries; }
  }

  /** UnpinPage of a page that is not cached, or not pinned, does nothing. */
  ghost function Unpin(pool: Pool, unsaved: set<nat>, p: nat, dirty: bool): Pool
    requires Coherent(pool, unsaved)
  {
    if PinsOf(pool, p) == 0 then pool
    else
      var f := pool.table[p];
      WithMeta(pool, f, PinTaken(pool.frames[f], dirty), Released(pool.lru, f, pool.frames[f].pins == 1))
  }

  /** The discipline: whoever changed a page announces it no later than with the last unpin. */
  predicate Announced(pool: Pool, unsaved: set<nat>, p: nat, dirty: bool) {
    p in unsaved && PinsOf(pool, p) == 1 ==> dirty
  }

  function StillUnsaved(unsaved: set<nat>, p: nat, dirty: bool): set<nat> { if dirty then unsaved - {p} else unsaved }

  /** What an unpin guarantees: the view of every page, and one pin taken back. */
  ghost predicate Unfetched(pool: Pool, pool': Pool, p: nat) {
    && SameView(pool, pool')
    && PinsOf(pool', p) == (if PinsOf(pool, p) > 0 then PinsOf(pool, p) - 1 else 0)
    && (forall q: nat :: q != p ==> PinsOf(pool', q) == PinsOf(pool, q))
    && pool'.table == pool.table && |pool'.frames| == |pool.frames| && pool'.disk == pool.disk
  }

  lemma UnpinStep(pool: Pool, unsaved: set<nat>, p: nat, dirty: bool, lru: Lru)
    requires PoolSound(pool, unsaved, None) && Announced(pool, unsaved, p, dirty) && PinsOf(pool, p) > 0
    requires lru.entries == pool.lru.entries[pool.table[p] := pool.frames[pool.table[p]].pins == 1]
    ensures var pool' := WithMeta(pool, pool.table[p], PinTaken(pool.frames[pool.table[p]], dirty), lru);
      PoolSound(pool', StillUnsaved(unsaved, p, dirty), None) && Unfetched(pool, pool', p)
  {
    var f := pool.table[p];
    MetaSound(pool, unsaved, StillUnsaved(unsaved, p, dirty), f, PinTaken(pool.frames[f], dirty), lru);
    MetaView(pool, f, PinTaken(pool.frames[f], dirty), lru);
    MetaPins(pool, p, PinTaken(pool.frames[f], dirty), lru);
  }

  /** UnpinPage keeps the invariant and the view, and takes back one pin. */
  lemma UnpinCoherent(pool: Pool, unsaved: set<nat>, p: nat, dirty: bool)
    requires Coherent(pool, unsaved) && Announced(pool, unsaved, p, dirty)
    ensures Coherent(Unpin(pool, unsaved, p, dirty), StillUnsaved(unsaved, p, dirty))
    ensures Unfetched(pool, Unpin(pool, unsaved, p, dirty), p)
  {
    if PinsOf(pool, p) == 0 {
      assert p !in unsaved;
      assert StillUnsaved(unsaved, p, dirty) == unsaved;
    } else {
      var f := pool.table[p];
      ReleasedSound(pool.lru, f, pool.frames[f].pins == 1);
      UnpinStep(pool, unsaved, p, dirty, Released(pool.lru, f, pool.frames[f].pins == 1));
    }
  }

  // ----- a client changes a page it holds a pin on -----

  function Changed(pool: Pool, p: nat, data: Bytes): Pool
    requires PinsOf(pool, p) > 0 && |pool.frames| == |pool.pages|
  {
    pool.(pages := pool.pages[pool.table[p] := data])
  }

  lemma ChangedCurrent(frames: Frames, table: map<nat, nat>, pages: seq<Bytes>, file: Bytes, unsaved: set<nat>, p: nat,
                       data: Bytes)
    requires TableInverse(frames, table) && FramesCurrent(frames, pages, file, unsaved) && p in table &&
      |data| == PAGE_SIZE
    ensures FramesCurrent(frames, pages[table[p] := data], file, unsaved + {p})
  {
    forall g | 0 <= g < |frames|
      ensures FrameCurrent(frames[g], pages[table[p] := data][g], file, unsaved + {p})
    {
      assert FrameCurrent(frames[g], pages[g], file, unsaved);
    }
  }

  lemma ChangedView(frames: Frames, table: map<nat, nat>, pages: seq<Bytes>, file: Bytes, p: nat, data: Bytes, q: nat)
    requires TableInverse(frames, table) && |frames| == |pages| && p in table
    ensures ViewOf(pages[table[p] := data], table, file, q) == if q == p then data else ViewOf(pages, table, file, q)
  {
  }

  lemma ChangeCoherent(pool: Pool, unsaved: set<nat>, p: nat, data: Bytes)
    requires Coherent(pool, unsaved) && PinsOf(pool, p) > 0 && |data| == PAGE_SIZE
    ensures Coherent(Changed(pool, p, data), unsaved + {p})
    ensures forall q: nat :: View(Changed(pool, p, data), q) == if q == p then data else View(pool, q)
  {
    ChangedCurrent(pool.frames, pool.table, pool.pages, pool.disk.file, unsaved, p, data);
    forall q: nat ensures View(Changed(pool, p, data), q) == if q == p then data else View(pool, q) {
      ChangedView(pool.frames, pool.table, pool.pages, pool.disk.file, p, data, q);
    }
  }

  // ----- write-back at destruction -----

  /** The file after the first `n` frames have been flushed. */
  function Flushed(frames: Frames, pages: seq<Bytes>, disk: DiskState, n: nat): DiskState
    requires n <= |frames| == |pages|
  {
    if n == 0 then disk
    else
      var d := Flushed(frames, pages, disk, n - 1);
      if frames[n - 1].inUse then WrittenBack(d, frames[n - 1], pages[n - 1]) else d
  }

  lemma WriteBackPage(disk: DiskState, m: FrameMeta, page: Bytes, p: nat)
    requires PageInFile(disk.file, m.pageId) && |page| == PAGE_SIZE && PageInFile(disk.file, p)
    ensures |WrittenBack(disk, m, page).file| == |disk.file|
    ensures PageAt(WrittenBack(disk, m, page).file, p) ==
      if m.dirty && p == m.pageId then page else PageAt(disk.file, p)
  {
    if m.dirty {
      WritePage(disk.file, m.pageId, page, p);
      assert PageOf(page, 0) == page;
    }
  }

  /** After the first `n` frames, page `p` holds its frame's bytes if it was dirty in one of them. */
  lemma {:induction false} FlushedPage(frames: Frames, table: map<nat, nat>, pages: seq<Bytes>, disk: DiskState,
                                       unsaved: set<nat>, n: nat, p: nat)
    requires TableInverse(frames, table) && FramesCurrent(frames, pages, disk.file, unsaved) && n <= |frames|
    requires PageInFile(disk.file, p)
    ensures |Flushed(frames, pages, disk, n).file| == |disk.file|
    ensures PageAt(Flushed(frames, pages, disk, n).file, p)
         == if p in table && table[p] < n && frames[table[p]].dirty then pages[table[p]] else PageAt(disk.file, p)
  {
    if n > 0 {
      FlushedPage(frames, table, pages, disk, unsaved, n - 1, p);
      var m := frames[n - 1];
      assert FrameCurrent(m, pages[n - 1], disk.file, unsaved);
      if m.inUse {
        WriteBackPage(Flushed(frames, pages, disk, n - 1), m, pages[n - 1], p);
        assert table[m.pageId] == n - 1;
      }
      if p in table && table[p] == n - 1 { assert m.pageId == p; }
    }
  }

  /** When the pool goes away, the file holds what clients saw of every page
      whose changes were announced. */
  lemma FlushSavesView(pool: Pool, unsaved: set<nat>, p: nat)
    requires PoolSound(pool, unsaved, None) && PageInFile(pool.disk.file, p) && p !in unsaved
    ensures |Flushed(pool.frames, pool.pages, pool.disk, |pool.frames|).file| == |pool.disk.file|
    ensures PageAt(Flushed(pool.frames, pool.pages, pool.disk, |pool.frames|).file, p) == View(pool, p)
  {
    FlushedPage(pool.frames, pool.table, pool.pages, pool.disk, unsaved, |pool.frames|, p);
    if p in pool.table {
      var f := pool.table[p];
      assert FrameCurrent(pool.frames[f], pool.pages[f], pool.disk.file, unsaved);
    }
  }

  lemma FlushSavesAll(pool: Pool, unsaved: set<nat>)
    requires PoolSound(pool, unsaved, None)
    ensures var d := Flushed(pool.frames, pool.pages, pool.disk, |pool.frames|);
      forall p: nat :: PageInFile(pool.disk.file, p) && p !in unsaved ==>
        PageInFile(d.file, p) && PageAt(d.file, p) == View(pool, p)
  {
    var d := Flushed(pool.frames, pool.pages, pool.disk, |pool.frames|);
    forall p: nat | PageInFile(pool.disk.file, p) && p !in unsaved
      ensures PageInFile(d.file, p) && PageAt(d.file, p) == View(pool, p)
    {
      FlushSavesView(pool, unsaved, p);
    }
  }

  // ----- whole runs -----

  datatype PoolOp = FetchOp(page: nat) | UnpinOp(page: nat, dirty: bool) | ChangeOp(page: nat, data: Bytes)

  /** The pool and the pages changed under a pin but not yet announced. */
  datatype Session = Session(pool: Pool, unsaved: set<nat>)

  /** Pages lie in the file; a page is changed only under a pin and announced by the last unpin. */
  predicate Allowed(s: Session, op: PoolOp) {
    match op
    case FetchOp(p) => PageInFile(s.pool.disk.file, p)
    case UnpinOp(p, dirty) => Announced(s.pool, s.unsaved, p, dirty)
    case ChangeOp(p, data) => PinsOf(s.pool, p) > 0 && |data| == PAGE_SIZE
  }

  ghost function PoolStep(s: Session, op: PoolOp): Session
    requires Coherent(s.pool, s.unsaved) && Allowed(s, op)
  {
    match op
    case FetchOp(p) => (match Fetch(s.pool, s.unsaved, p) case Some(pool) => s.(pool := pool) case None => s)
    case UnpinOp(p, dirty) => Session(Unpin(s.pool, s.unsaved, p, dirty), StillUnsaved(s.unsaved, p, dirty))
    case ChangeOp(p, data) => Session(Changed(s.pool, p, data), s.unsaved + {p})
  }

  lemma StepCoherent(s: Session, op: PoolOp)
    requires Coherent(s.pool, s.unsaved) && Allowed(s, op)
    ensures Coherent(PoolStep(s, op).pool, PoolStep(s, op).unsaved)
    ensures forall q: nat :: View(PoolStep(s, op).pool, q)
                          == if op.ChangeOp? && op.page == q then op.data else View(s.pool, q)
  {
    match op
    case FetchOp(p) => if Fetch(s.pool, s.unsaved, p).Some? { FetchCoherent(s.pool, s.unsaved, p); }
    case UnpinOp(p, dirty) => UnpinCoherent(s.pool, s.unsaved, p, dirty);
    case ChangeOp(p, data) => ChangeCoherent(s.pool, s.unsaved, p, data);
  }

  ghost predicate IsPoolRun(ss: seq<Session>, ops: seq<PoolOp>) {
    && |ss| == |ops| + 1 && Coherent(ss[0].pool, ss[0].unsaved)
    && forall i :: 0 <= i < |ops| ==>
         Coherent(ss[i].pool, ss[i].unsaved) && Allowed(ss[i], ops[i]) && ss[i + 1] == PoolStep(ss[i], ops[i])
  }

  /** What page `q` holds after the operations: the last change made to it. */
  function LastChange(ops: seq<PoolOp>, q: nat, initial: Bytes): Bytes {
    if ops == [] then initial
    else
      var op := ops[|ops| - 1];
      if op.ChangeOp? && op.page == q then op.data else LastChange(ops[..|ops| - 1], q, initial)
  }

  /** In every state of every run the pool is coherent and every page shows its
      last change: fetching, unpinning and evicting are invisible. */
  lemma {:induction false} EveryRunShowsLastChange(ss: seq<Session>, ops: seq<PoolOp>, k: nat, q: nat)
    requires IsPoolRun(ss, ops) && k <= |ops|
    ensures Coherent(ss[k].pool, ss[k].unsaved)
    ensures View(ss[k].pool, q) == LastChange(ops[..k], q, View(ss[0].pool, q))
  {
    if k > 0 {
      EveryRunShowsLastChange(ss, ops, k - 1, q);
      StepShows(ss[k - 1], ops[k - 1], q);
      LastChangeSnoc(ops, k, q, View(ss[0].pool, q));
    }
  }

  lemma StepShows(s: Session, op: PoolOp, q: nat)
    requires Coherent(s.pool, s.unsaved) && Allowed(s, op)
    ensures Coherent(PoolStep(s, op).pool, PoolStep(s, op).unsaved)
    ensures View(PoolStep(s, op).pool, q) == if op.ChangeOp? && op.page == q then op.data else View(s.pool, q)
  {
    StepCoherent(s, op);
  }

  lemma LastChangeSnoc(ops: seq<PoolOp>, k: nat, q: nat, initial: Bytes)
    requires 0 < k <= |ops|
    ensures LastChange(ops[..k], q, initial)
         == if ops[k - 1].ChangeOp? && ops[k - 1].page == q then ops[k - 1].data
            else LastChange(ops[..k - 1], q, initial)
  {
    assert ops[..k][..k - 1] == ops[..k - 1];
  }

  // ----- the manager -----

  function FreshPool(n: nat, disk: DiskState): Pool {
    Pool(seq(n, _ => FrameMeta(0, 0, false, false)), seq(n, _ => []), map[], seq(n, i => i),
      Lru([], map[], map[], 0, 0), disk)
  }

  lemma FreshPoolCoherent(n: nat, disk: DiskState)
    ensures Coherent(FreshPool(n, disk), {})
  {
    var pool := FreshPool(n, disk);
    assert EvictableFrames(pool.lru.entries) == {};
    forall f: nat ensures f in pool.freeList <==> f < |pool.frames| {
      if f < n { assert pool.freeList[f] == f; }
    }
  }

  class BufferPoolManager {
    var frames: Frames
    var pages: seq<Bytes>
    var table: map<nat, nat>
    var freeList: seq<nat>
    const replacer: LruReplacer
    const disk: DiskManager
    ghost var unsaved: set<nat>

    ghost function State(): Pool
      reads this, replacer, disk
    {
      Pool(frames, pages, table, freeList, replacer.state, disk.state)
    }

    ghost predicate Valid()
      reads this, replacer, disk
    {
      Coherent(State(), unsaved)
    }

    constructor (poolSize: nat, diskManager: DiskManager)
      ensures Valid() && fresh(replacer) && disk == diskManager && unsaved == {}
      ensures State() == FreshPool(poolSize, diskManager.state)
    {
      frames := seq(poolSize, _ => FrameMeta(0, 0, false, false));
      pages := seq(poolSize, _ => []);
      table := map[];
      freeList := seq(poolSize, i => i);
      replacer := new LruReplacer();
      disk := diskManager;
      unsaved := {};
      new;
      FreshPoolCoherent(poolSize, diskManager.state);
      assert State() == FreshPool(poolSize, diskManager.state);
    }

    /** The last free frame, else the replacer's victim. */
    method FindFreeFrame() returns (frame: Option<Frame>)
      requires Valid()
      modifies this`freeList, replacer
      ensures old(FreeFrame(State())).None? ==> frame.None? && State() == old(State())
      ensures old(FreeFrame(State())).Some? ==>
        && frame == Some(old(FreeFrame(State())).value.0)
        && replacer.state == old(FreeFrame(State())).value.1
        && freeList == if old(freeList) == [] then [] else old(freeList)[..|old(freeList)| - 1]
    {
      if freeList != [] {
        frame := Some(freeList[|freeList| - 1]);
        freeList := freeList[..|freeList| - 1];
        return;
      }
      frame := replacer.Evict();
    }

    /** The replacer hears of an access and must not evict the frame. */
    method Touch(f: nat)
      requires Sound(replacer.state)
      modifies replacer
      ensures replacer.state == Touched(old(replacer.state), f)
    {
      replacer.RecordAccess(f);
      RecordedKnows(old(replacer.state), f);
      var known := replacer.SetEvictable(f, false);
    }

    /** Frame `f` gives up its page, writing it back if dirty. */
    method GiveUp(f: nat)
      requires f < |frames| == |pages|
      modifies this`table, disk
      ensures table == if frames[f].inUse then old(table) - {frames[f].pageId} else old(table)
      ensures disk.state ==
        if frames[f].inUse then WrittenBack(old(disk.state), frames[f], pages[f]) else old(disk.state)
    {
      if frames[f].inUse {
        if frames[f].dirty {
          var ok := disk.WriteAt(frames[f].pageId, pages[f]);
        }
        table := table - {frames[f].pageId};
      }
    }

    /** Page `p` is read into frame `f`, pinned once. */
    method ReadInto(f: nat, p: nat)
      requires f < |frames| == |pages| && PageInFile(disk.state.file, p) && Sound(replacer.state)
      modifies this, replacer
      ensures freeList == old(freeList) && unsaved == old(unsaved)
      ensures frames == old(frames)[f := FrameMeta(p, 1, false, true)]
      ensures pages == old(pages)[f := PageAt(disk.state.file, p)]
      ensures table == old(table)[p := f] && replacer.state == Touched(old(replacer.state), f)
    {
      var data := ReadPages(disk.state, p, 1);
      pages := pages[f := data.value];
      frames := frames[f := FrameMeta(p, 1, false, true)];
      table := table[p := f];
      Touch(f);
    }

    method TakePin(f: nat, dirty: bool)
      requires f < |frames| && frames[f].pins > 0 && Sound(replacer.state) && f in replacer.state.entries
      modifies this`frames, replacer
      ensures State() ==
        WithMeta(old(State()), f, PinTaken(old(frames[f]), dirty),
          Released(old(replacer.state), f, old(frames[f]).pins == 1))
    {
      frames := frames[f := frames[f].(pins := frames[f].pins - 1, dirty := frames[f].dirty || dirty)];
      if frames[f].pins == 0 {
        var known := replacer.SetEvictable(f, true);
      }
    }

    /** Pins a cached page once more. */
    method PinCached(f: nat)
      requires f < |frames| && Sound(replacer.state)
      modifies this`frames, replacer
      ensures State() == WithMeta(old(State()), f, PinAdded(old(frames[f])), Touched(old(replacer.state), f))
    {
      frames := frames[f := frames[f].(pins := frames[f].pins + 1)];
      Touch(f);
    }

    /** Reads page `p` into frame `f`, which was free or has just been evicted. */
    method Replace(f: nat, p: nat)
      requires f < |frames| == |pages| && Sound(replacer.state) && PageInFile(disk.state.file, p)
      requires frames[f].inUse ==> |WrittenBack(disk.state, frames[f], pages[f]).file| == |disk.state.file|
      modifies this, replacer, disk
      ensures unsaved == old(unsaved)
      ensures PageInFile(disk.state.file, p)
      ensures State() == Loaded(old(if frames[f].inUse then Vacated(State(), f, replacer.state) else State()), f, p,
                                Touched(old(replacer.state), f))
    {
      GiveUp(f);
      ReadInto(f, p);
    }

    /** FetchPage: None is the exception thrown when every frame is pinned. */
    method FetchPage(p: nat) returns (frame: Option<nat>)
      requires Valid() && PageInFile(disk.state.file, p)
      modifies this, replacer, disk
      ensures Valid() && unsaved == old(unsaved)
      ensures old(Fetch(State(), unsaved, p)).None? ==> frame.None? && State() == old(State())
      ensures old(Fetch(State(), unsaved, p)).Some? ==>
        && State() == old(Fetch(State(), unsaved, p)).value
        && p in table && frame == Some(table[p])
    {
      ghost var before := State();
      if p in table {
        var f := table[p];
        PinCached(f);
        FetchCoherent(before, unsaved, p);
        return Some(f);
      }
      var victim := FindFreeFrame();
      if victim.None? {
        return None;
      }
      FreeFrameSound(before);
      FrameIsTakeable(before, unsaved, victim.value, replacer.state);
      Replace(victim.value, p);
      FetchCoherent(before, unsaved, p);
      frame := Some(victim.value);
    }

    method UnpinPage(p: nat, dirty: bool)
      requires Valid() && Announced(State(), unsaved, p, dirty)
      modifies this, replacer
      ensures Valid() && unsaved == StillUnsaved(old(unsaved), p, dirty)
      ensures State() == old(Unpin(State(), unsaved, p, dirty))
    {
      ghost var before := State();
      if p in table && frames[table[p]].pins > 0 {
        TakePin(table[p], dirty);
      }
      UnpinCoherent(before, unsaved, p, dirty);
      unsaved := StillUnsaved(unsaved, p, dirty);
    }

    /** The destructor's write-back. */
    method Flush()
      requires Valid()
      modifies disk
      ensures disk.state == Flushed(frames, pages, old(disk.state), |frames|)
      ensures forall p: nat :: PageInFile(old(disk.state).file, p) && p !in unsaved ==>
        PageInFile(disk.state.file, p) && PageAt(disk.state.file, p) == old(View(State(), p))
    {
      FlushSavesAll(State(), unsaved);
      WriteFrames();
    }

    method WriteFrames()
      requires |frames| == |pages|
      modifies disk
      ensures disk.state == Flushed(frames, pages, old(disk.state), |frames|)
    {
      for i := 0 to |frames|
        invariant disk.state == Flushed(frames, pages, old(disk.state), i)
      {
        if frames[i].inUse && frames[i].dirty {
          var ok := disk.WriteAt(frames[i].pageId, pages[i]);
        }
      }
    }
  }
}
