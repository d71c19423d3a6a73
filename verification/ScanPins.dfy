/** How a scan uses the buffer pool: it holds at most two pins at a time, gives
    every pin back, and so never runs a pool of two frames out. */
module ScanPins {
  import opened Types
  import opened ByteIO
  import opened BufferPool
  import opened Layout
  import opened ScanCells

  /** Only pages that have been handed out are cached. */
  ghost predicate CachedBelow(pool: Pool) { forall q :: q in pool.table ==> q < pool.disk.nextFree }

  ghost predicate PinsAre(pool: Pool, pins: multiset<nat>) { forall q: nat :: PinsOf(pool, q) == pins[q] }

  /** Pinned pages and the frames that pointers into them refer to. */
  ghost predicate Pointers(pool: Pool, pins: multiset<nat>, held: map<nat, nat>) {
    forall q :: q in held ==> pins[q] > 0 && q in pool.table && pool.table[q] == held[q]
  }

  ghost predicate Shows(pool: Pool, pages: Pages, lo: nat, hi: nat) {
    hi <= pool.disk.nextFree &&
    forall p: nat {:trigger View(pool, p)} :: lo <= p < hi ==>
      PageInFile(pool.disk.file, p) && View(pool, p) == At(pages, p)
  }

  ghost predicate InUse(pool: Pool, pages: Pages, lo: nat, hi: nat, pins: multiset<nat>, held: map<nat, nat>) {
    CachedBelow(pool) && PinsAre(pool, pins) && Pointers(pool, pins, held) && Shows(pool, pages, lo, hi)
  }

  /** The pool as a scan of the pages from `lo` up to `hi` finds it. */
  ghost predicate Ready(pool: Pool, pages: Pages, lo: nat, hi: nat, pins: multiset<nat>, held: map<nat, nat>) {
    Coherent(pool, {}) && |pool.frames| >= 2 && InUse(pool, pages, lo, hi, pins, held)
  }

  lemma TwoInMultiset(m: multiset<nat>, a: nat, b: nat)
    requires a != b && m[a] > 0 && m[b] > 0
    ensures |m| >= 2
  {
    assert m == multiset{a, b} + (m - multiset{a, b});
  }

  /** With at most one page pinned, two frames are not both pinned. */
  lemma NotAllPinned(pool: Pool, pins: multiset<nat>)
    requires TableInverse(pool.frames, pool.table) && PinsAre(pool, pins) && |pins| <= 1 && |pool.frames| >= 2
    ensures !AllPinned(pool.frames)
  {
    if AllPinned(pool.frames) {
      var a, b := pool.frames[0].pageId, pool.frames[1].pageId;
      assert pool.table[a] == 0 && pool.table[b] == 1;
      assert PinsOf(pool, a) > 0 && PinsOf(pool, b) > 0;
      TwoInMultiset(pins, a, b);
      assert false;
    }
  }

  lemma FetchSucceeds(pool: Pool, pages: Pages, lo: nat, hi: nat, pins: multiset<nat>, held: map<nat, nat>, p: nat)
    requires Ready(pool, pages, lo, hi, pins, held) && lo <= p < hi && |pins| <= 1
    ensures PageInFile(pool.disk.file, p) && Fetch(pool, {}, p).Some?
  {
    assert View(pool, p) == At(pages, p);
    NotAllPinned(pool, pins);
    FetchFailsIff(pool, {}, p);
  }

  lemma FetchPins(pool: Pool, pool': Pool, p: nat, pins: multiset<nat>)
    requires PinsAre(pool, pins) && PinsKept(pool, pool', p)
    ensures PinsAre(pool', pins + multiset{p})
  {
  }

  lemma FetchShows(pool: Pool, pool': Pool, pages: Pages, lo: nat, hi: nat)
    requires Shows(pool, pages, lo, hi) && SameView(pool, pool') && pool'.disk.nextFree == pool.disk.nextFree
    ensures Shows(pool', pages, lo, hi)
  {
    forall p: nat | lo <= p < hi ensures PageInFile(pool'.disk.file, p) && View(pool', p) == At(pages, p) {
      assert View(pool, p) == At(pages, p) && View(pool', p) == View(pool, p);
    }
  }

  lemma FetchUse(pool: Pool, pool': Pool, pages: Pages, lo: nat, hi: nat, pins: multiset<nat>, held: map<nat, nat>,
                 p: nat)
    requires InUse(pool, pages, lo, hi, pins, held) && Fetched(pool, pool', p) && lo <= p < hi
    requires forall q :: q in held ==> q in pool'.table && pool'.table[q] == held[q]
    ensures InUse(pool', pages, lo, hi, pins + multiset{p}, held[p := pool'.table[p]])
  {
    FetchPins(pool, pool', p, pins);
    FetchShows(pool, pool', pages, lo, hi);
    forall q | q in pool'.table ensures q < pool'.disk.nextFree { assert q in pool.table.Keys + {p}; }
  }

  lemma HeldStay(pool: Pool, pins: multiset<nat>, held: map<nat, nat>, p: nat)
    requires Coherent(pool, {}) && PinsAre(pool, pins) && Pointers(pool, pins, held)
    requires PageInFile(pool.disk.file, p) && Fetch(pool, {}, p).Some?
    ensures forall q :: q in held ==>
      q in Fetch(pool, {}, p).value.table && Fetch(pool, {}, p).value.table[q] == held[q]
  {
    forall q | q in held ensures q in Fetch(pool, {}, p).value.table && Fetch(pool, {}, p).value.table[q] == held[q] {
      assert PinsOf(pool, q) == pins[q];
      PinnedStaysPut(pool, {}, p, q);
    }
  }

  /** Fetching a page of the scan succeeds, adds one pin and moves no pinned page. */
  lemma FetchReady(pool: Pool, pages: Pages, lo: nat, hi: nat, pins: multiset<nat>, held: map<nat, nat>, p: nat)
    requires Ready(pool, pages, lo, hi, pins, held) && lo <= p < hi && |pins| <= 1
    ensures PageInFile(pool.disk.file, p) && Fetch(pool, {}, p).Some?
    ensures var pool' := Fetch(pool, {}, p).value;
      && p in pool'.table && Ready(pool', pages, lo, hi, pins + multiset{p}, held[p := pool'.table[p]])
  {
    FetchSucceeds(pool, pages, lo, hi, pins, held, p);
    FetchCoherent(pool, {}, p);
    HeldStay(pool, pins, held, p);
    FetchUse(pool, Fetch(pool, {}, p).value, pages, lo, hi, pins, held, p);
  }

  /** What a pointer to a pinned page shows. */
  lemma PointerShows(pool: Pool, pages: Pages, lo: nat, hi: nat, pins: multiset<nat>, held: map<nat, nat>, p: nat)
    requires Ready(pool, pages, lo, hi, pins, held) && lo <= p < hi && p in held
    ensures held[p] < |pool.pages| && pool.pages[held[p]] == At(pages, p)
  {
    assert View(pool, p) == At(pages, p);
  }

  function Let(held: map<nat, nat>, pins: multiset<nat>, p: nat): map<nat, nat> {
    if pins[p] > 1 then held else held - {p}
  }

  /** Unpinning takes one pin back and changes nothing else. */
  lemma UnpinReady(pool: Pool, pages: Pages, lo: nat, hi: nat, pins: multiset<nat>, held: map<nat, nat>, p: nat)
    requires Ready(pool, pages, lo, hi, pins, held) && pins[p] > 0
    ensures Ready(Unpin(pool, {}, p, false), pages, lo, hi, pins - multiset{p}, Let(held, pins, p))
  {
    UnpinCoherent(pool, {}, p, false);
    UnpinUse(pool, Unpin(pool, {}, p, false), pages, lo, hi, pins, held, p);
  }

  lemma UnpinUse(pool: Pool, pool': Pool, pages: Pages, lo: nat, hi: nat, pins: multiset<nat>, held: map<nat, nat>,
                 p: nat)
    requires InUse(pool, pages, lo, hi, pins, held) && Unfetched(pool, pool', p) && pins[p] > 0
    ensures InUse(pool', pages, lo, hi, pins - multiset{p}, Let(held, pins, p))
  {
    UnpinPins(pool, pool', p, pins);
    FetchShows(pool, pool', pages, lo, hi);
  }

  lemma UnpinPins(pool: Pool, pool': Pool, p: nat, pins: multiset<nat>)
    requires PinsAre(pool, pins) && pins[p] > 0 && Unfetched(pool, pool', p)
    ensures PinsAre(pool', pins - multiset{p})
  {
  }

  // ----- the scan's calls -----

  method PinPage(pool: BufferPoolManager, p: nat, ghost pages: Pages, ghost lo: nat, ghost hi: nat,
                 ghost pins: multiset<nat>, ghost held: map<nat, nat>) returns (frame: nat)
    requires Ready(pool.State(), pages, lo, hi, pins, held) && pool.unsaved == {} && lo <= p < hi && |pins| <= 1
    modifies pool, pool.replacer, pool.disk
    ensures pool.unsaved == {} && Ready(pool.State(), pages, lo, hi, pins + multiset{p}, held[p := frame])
    ensures p in held ==> frame == held[p]
  {
    FetchReady(pool.State(), pages, lo, hi, pins, held, p);
    HeldStay(pool.State(), pins, held, p);
    var f := pool.FetchPage(p);
    frame := f.value;
  }

  method ReleasePage(pool: BufferPoolManager, p: nat, ghost pages: Pages, ghost lo: nat, ghost hi: nat,
                     ghost pins: multiset<nat>, ghost held: map<nat, nat>)
    requires Ready(pool.State(), pages, lo, hi, pins, held) && pool.unsaved == {} && pins[p] > 0
    modifies pool, pool.replacer
    ensures pool.unsaved == {} && Ready(pool.State(), pages, lo, hi, pins - multiset{p}, Let(held, pins, p))
  {
    UnpinReady(pool.State(), pages, lo, hi, pins, held, p);
    pool.UnpinPage(p, false);
  }

  lemma PointersRestored(pool: Pool, pins: multiset<nat>, held: map<nat, nat>, p: nat, frame: nat)
    requires Pointers(pool, pins, Let(held[p := frame], pins + multiset{p}, p))
    requires forall q :: q in held ==> pins[q] > 0
    requires p in held ==> frame == held[p]
    ensures Pointers(pool, pins, held)
  {
  }

  lemma PinsRestored(pool: Pool, pages: Pages, lo: nat, hi: nat, pins: multiset<nat>, held: map<nat, nat>, p: nat,
                     frame: nat)
    requires Ready(pool, pages, lo, hi, pins + multiset{p} - multiset{p}, Let(held[p := frame], pins + multiset{p}, p))
    requires forall q :: q in held ==> pins[q] > 0
    requires p in held ==> frame == held[p]
    ensures Ready(pool, pages, lo, hi, pins, held)
  {
    OnePinBack(pins, p);
    PointersRestored(pool, pins, held, p, frame);
  }

  lemma OnePinBack(pins: multiset<nat>, p: nat)
    ensures pins + multiset{p} - multiset{p} == pins
  {
  }

  /** Fetch, copy, unpin. */
  method ReadPage(pool: BufferPoolManager, p: nat, ghost pages: Pages, ghost lo: nat, ghost hi: nat,
                  ghost pins: multiset<nat>, ghost held: map<nat, nat>) returns (bytes: Bytes)
    requires Ready(pool.State(), pages, lo, hi, pins, held) && pool.unsaved == {} && lo <= p < hi && |pins| <= 1
    modifies pool, pool.replacer, pool.disk
    ensures bytes == At(pages, p)
    ensures pool.unsaved == {} && Ready(pool.State(), pages, lo, hi, pins, held)
  {
    var frame := PinPage(pool, p, pages, lo, hi, pins, held);
    PointerShows(pool.State(), pages, lo, hi, pins + multiset{p}, held[p := frame], p);
    bytes := pool.pages[frame];
    ReleasePage(pool, p, pages, lo, hi, pins + multiset{p}, held[p := frame]);
    PinsRestored(pool.State(), pages, lo, hi, pins, held, p, frame);
  }

  lemma RegionGrows(pages: Pages, start: nat, i: nat, p: nat, scratch: Bytes, page: Bytes)
    requires scratch == RegionBytes(pages, start, i) && p == start + i && page == At(pages, p)
    ensures scratch + page == RegionBytes(pages, start, i + 1)
  {
  }

  /** Every page of a range, one at a time. */
  method FetchWholeRegion(pool: BufferPoolManager, start: nat, count: nat, ghost pages: Pages, ghost lo: nat,
                          ghost hi: nat,
                          ghost pins: multiset<nat>, ghost held: map<nat, nat>) returns (scratch: Bytes)
    requires Ready(pool.State(), pages, lo, hi, pins, held) && pool.unsaved == {} && |pins| <= 1
    requires lo <= start && start + count <= hi
    modifies pool, pool.replacer, pool.disk
    ensures pool.unsaved == {} && Ready(pool.State(), pages, lo, hi, pins, held)
    ensures scratch == RegionBytes(pages, start, count)
  {
    scratch := [];
    for i := 0 to count
      invariant pool.unsaved == {} && Ready(pool.State(), pages, lo, hi, pins, held)
      invariant scratch == RegionBytes(pages, start, i)
    {
      var p: nat := start + i;
      var page := ReadPage(pool, p, pages, lo, hi, pins, held);
      RegionGrows(pages, start, i, p, scratch, page);
      scratch := scratch + page;
    }
  }

  /** Every page of the scan is a whole page, the one past a column's data included. */
  lemma ShownPagesWhole(pool: Pool, pages: Pages, lo: nat, hi: nat, pins: multiset<nat>, held: map<nat, nat>)
    requires Ready(pool, pages, lo, hi, pins, held)
    ensures forall p: nat :: lo <= p < hi ==> |At(pages, p)| == PAGE_SIZE
  {
    forall p: nat | lo <= p < hi ensures |At(pages, p)| == PAGE_SIZE {
      assert View(pool, p) == At(pages, p);
      if p in pool.table {
        var f := pool.table[p];
        assert FrameCurrent(pool.frames[f], pool.pages[f], pool.disk.file, {});
      }
    }
  }
}
