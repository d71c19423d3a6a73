/** Which page the buffer pool gives up, said by the fetches alone: over every
    run from a fresh pool, a miss without a free frame drops the unpinned page
    whose last successful fetch is the oldest. */
module EvictionOrder {
  import opened Seqs
  import opened Types
  import opened Disk
  import opened Replacer
  import opened BufferPool

  // ----- when a page was fetched last -----

  /** Operation `i` fetched the page: it is cached afterwards. */
  predicate Fetches(ss: seq<Session>, ops: seq<PoolOp>, i: nat, p: nat)
    requires i < |ops| && |ss| == |ops| + 1
  {
    ops[i] == FetchOp(p) && p in ss[i + 1].pool.table
  }

  /** One more than the number of the last of the first `k` operations that fetched the page; 0 if none did. */
  function LastFetch(ss: seq<Session>, ops: seq<PoolOp>, k: nat, p: nat): (t: nat)
    requires k <= |ops| && |ss| == |ops| + 1
    ensures t <= k && (t > 0 ==> Fetches(ss, ops, t - 1, p))
    ensures forall i :: t <= i < k ==> !Fetches(ss, ops, i, p)
  {
    if k == 0 then 0
    else if Fetches(ss, ops, k - 1, p) then k
    else LastFetch(ss, ops, k - 1, p)
  }

  // ----- the replacer's times -----

  type Table = map<nat, nat>
  type Times = map<Frame, nat>

  /** The moment of the last access to the page's frame. */
  function TimeIn(table: Table, times: Times, p: nat): nat {
    if p in table && table[p] in times then times[table[p]] else 0
  }

  lemma TimesBeforeNow(lru: Lru, f: Frame)
    requires Sound(lru) && f in lru.position
    ensures lru.position[f] < lru.clock
  {
    assert f in FramesOf(lru.order);
    var n :| n in lru.order && n.frame == f;
    var i :| 0 <= i < |lru.order| && lru.order[i] == n;
  }

  lemma TouchedTimes(lru: Lru, f: Frame)
    requires Sound(lru)
    ensures Touched(lru, f).position == lru.position[f := lru.clock]
  {
    RecordedKnows(lru, f);
  }

  /** Every cached page has a time, and it is past. */
  ghost predicate Timed(table: Table, times: Times, now: nat) {
    forall p :: p in table ==> table[p] in times && times[table[p]] < now
  }

  lemma CachedIsTimed(pool: Pool, unsaved: set<nat>)
    requires Coherent(pool, unsaved)
    ensures Timed(pool.table, pool.lru.position, pool.lru.clock)
  {
    forall p | p in pool.table
      ensures pool.table[p] in pool.lru.position && pool.lru.position[pool.table[p]] < pool.lru.clock
    {
      assert pool.table[p] in pool.lru.entries;
      assert pool.table[p] in pool.lru.position.Keys;
      TimesBeforeNow(pool.lru, pool.table[p]);
    }
  }

  /** The page is the newest; the others that stay keep their times. */
  ghost predicate NewestIn(table: Table, times: Times, table': Table, times': Times, p: nat) {
    && p in table'
    && forall q: nat :: q in table' && q != p ==>
         q in table && TimeIn(table', times', q) == TimeIn(table, times, q) < TimeIn(table', times', p)
  }

  ghost predicate NewestAmong(pool: Pool, pool': Pool, p: nat) {
    NewestIn(pool.table, pool.lru.position, pool'.table, pool'.lru.position, p)
  }

  lemma AccessIsNewest(table: Table, times: Times, gone: set<nat>, times': Times, p: nat, f: nat, now: nat)
    requires Timed(table, times, now) && f in times' && times'[f] == now
    requires forall q :: q in table && q !in gone && q != p ==> table[q] != f
    requires forall g :: g in times && g != f ==> g in times' && times'[g] == times[g]
    ensures NewestIn(table, times, (table - gone)[p := f], times', p)
  {
  }

  lemma HitIsNewest(pool: Pool, unsaved: set<nat>, p: nat)
    requires Coherent(pool, unsaved) && PageInFile(pool.disk.file, p) && p in pool.table
    ensures Fetch(pool, unsaved, p).Some? && NewestAmong(pool, Fetch(pool, unsaved, p).value, p)
    ensures Fetch(pool, unsaved, p).value.table == pool.table
  {
    TouchedTimes(pool.lru, pool.table[p]);
    CachedIsTimed(pool, unsaved);
    AgainIsNewest(pool.table, pool.lru.position, p, pool.lru.clock);
  }

  lemma AgainIsNewest(table: Table, times: Times, p: nat, now: nat)
    requires Timed(table, times, now) && p in table
    requires forall q :: q in table && q != p ==> table[q] != table[p]
    ensures NewestIn(table, times, table, times[table[p] := now], p)
  {
  }

  /** The page that a miss drops: that of the frame taken, if it was in use. */
  function Dropped(frames: Frames, freeList: seq<nat>, f: nat): set<nat>
    requires f < |frames|
  {
    if freeList == [] then {frames[f].pageId} else {}
  }

  /** The frame taken holds no page but the dropped one. */
  lemma OthersElsewhere(frames: Frames, table: Table, freeList: seq<nat>, f: nat)
    requires TableInverse(frames, table) && f < |frames| && (freeList != [] ==> !frames[f].inUse)
    ensures forall q :: q in table && q !in Dropped(frames, freeList, f) ==> table[q] != f
  {
  }

  /** The replacer without the frame taken keeps the other times. */
  ghost predicate KeepsTimes(lru: Lru, lru': Lru, f: Frame) {
    && lru'.clock == lru.clock
    && forall g :: g in lru.position && g != f ==> g in lru'.position && lru'.position[g] == lru.position[g]
  }

  lemma RemovedKeepsTimes(lru: Lru, f: Frame)
    requires f in lru.position && lru.evictableCount > 0
    ensures KeepsTimes(lru, Removed(lru, f), f)
  {
  }

  lemma FreeFrameTimes(pool: Pool)
    requires Sound(pool.lru) && EntriesTrack(pool.frames, pool.lru.entries) && FreeFrame(pool).Some?
    ensures KeepsTimes(pool.lru, FreeFrame(pool).value.1, FreeFrame(pool).value.0)
  {
    if pool.freeList == [] {
      var f := Victim(pool.lru).value;
      VictimIsFree(pool.frames, pool.lru, f);
      RemovedKeepsTimes(pool.lru, f);
    }
  }

  lemma TakenTable(pool: Pool, f: nat, lru: Lru)
    requires f < |pool.frames| == |pool.pages|
    ensures Taken(pool, f, lru).table == pool.table - Dropped(pool.frames, pool.freeList, f)
  {
    assert pool.table - {} == pool.table;
  }

  lemma FetchLoads(pool: Pool, unsaved: set<nat>, p: nat) returns (f: nat, lru: Lru, pool': Pool)
    requires Coherent(pool, unsaved) && PageInFile(pool.disk.file, p) && p !in pool.table
    requires FreeFrame(pool).Some?
    ensures FreeFrame(pool) == Some((f, lru)) && Sound(lru) && f < |pool.frames| == |pool.pages|
    ensures Fetch(pool, unsaved, p) == Some(pool')
    ensures pool'.table == Taken(pool, f, lru).table[p := f] && pool'.lru == Touched(lru, f)
  {
    FreeFrameSound(pool);
    f, lru := FreeFrame(pool).value.0, FreeFrame(pool).value.1;
    TakenFound(pool, unsaved, f, lru);
    pool' := Fetch(pool, unsaved, p).value;
  }

  lemma TakenIsVacant(pool: Pool, unsaved: set<nat>)
    requires Coherent(pool, unsaved) && FreeFrame(pool).Some? && pool.freeList != []
    ensures FreeFrame(pool).value.0 < |pool.frames| && !pool.frames[FreeFrame(pool).value.0].inUse
  {
    assert pool.freeList[|pool.freeList| - 1] in pool.freeList;
  }

  /** What a miss does to the table: the frame's old page, if any, goes. */
  lemma MissIsNewest(pool: Pool, unsaved: set<nat>, p: nat) returns (f: nat, pool': Pool)
    requires Coherent(pool, unsaved) && PageInFile(pool.disk.file, p) && p !in pool.table
    requires FreeFrame(pool).Some?
    ensures FreeFrame(pool).value.0 == f < |pool.frames| && Fetch(pool, unsaved, p) == Some(pool')
    ensures pool'.table == (pool.table - Dropped(pool.frames, pool.freeList, f))[p := f]
    ensures NewestAmong(pool, pool', p)
  {
    var lru;
    f, lru, pool' := FetchLoads(pool, unsaved, p);
    var gone := Dropped(pool.frames, pool.freeList, f);
    TakenTable(pool, f, lru);
    FreeFrameTimes(pool);
    TouchedTimes(lru, f);
    CachedIsTimed(pool, unsaved);
    if pool.freeList != [] { TakenIsVacant(pool, unsaved); }
    OthersElsewhere(pool.frames, pool.table, pool.freeList, f);
    AccessIsNewest(pool.table, pool.lru.position, gone, lru.position[f := lru.clock], p, f, lru.clock);
  }

  /** Nothing happens to the times unless a page is fetched. */
  ghost predicate SameTimes(pool: Pool, pool': Pool) {
    pool'.table == pool.table && pool'.lru.position == pool.lru.position
  }

  lemma QuietStep(s: Session, op: PoolOp)
    requires Coherent(s.pool, s.unsaved) && Allowed(s, op)
    requires op.FetchOp? ==> op.page !in PoolStep(s, op).pool.table
    ensures SameTimes(s.pool, PoolStep(s, op).pool)
  {
    match op
    case FetchOp(p) => if Fetch(s.pool, s.unsaved, p).Some? { FetchCoherent(s.pool, s.unsaved, p); }
    case UnpinOp(p, dirty) =>
    case ChangeOp(p, data) =>
  }

  lemma FetchStep(s: Session, p: nat)
    requires Coherent(s.pool, s.unsaved) && Allowed(s, FetchOp(p)) && p in PoolStep(s, FetchOp(p)).pool.table
    ensures NewestAmong(s.pool, PoolStep(s, FetchOp(p)).pool, p)
  {
    if p in s.pool.table {
      HitIsNewest(s.pool, s.unsaved, p);
    } else {
      var f, pool' := MissIsNewest(s.pool, s.unsaved, p);
    }
  }

  // ----- the invariant of every run -----

  /** The times order the cached pages as `last`, their last fetches, does. */
  ghost predicate OrderedAs(table: Table, times: Times, last: nat -> nat) {
    && (forall p: nat :: p in table ==> last(p) > 0)
    && forall p: nat, q: nat :: p in table && q in table ==>
         (TimeIn(table, times, p) < TimeIn(table, times, q) <==> last(p) < last(q))
  }

  lemma OrderedAfter(table: Table, times: Times, last: nat -> nat, table': Table, times': Times, last': nat -> nat,
                     p: nat, now: nat)
    requires OrderedAs(table, times, last) && NewestIn(table, times, table', times', p)
    requires forall q: nat :: last(q) < now && last'(q) == if q == p then now else last(q)
    ensures OrderedAs(table', times', last')
  {
  }

  function LastFetches(ss: seq<Session>, ops: seq<PoolOp>, k: nat): nat -> nat
    requires k <= |ops| && |ss| == |ops| + 1
  {
    (p: nat) => LastFetch(ss, ops, k, p)
  }

  /** The replacer's times order the cached pages as their last fetches do. */
  ghost predicate TimesAreFetches(ss: seq<Session>, ops: seq<PoolOp>, k: nat)
    requires k <= |ops| && |ss| == |ops| + 1
  {
    OrderedAs(ss[k].pool.table, ss[k].pool.lru.position, LastFetches(ss, ops, k))
  }

  /** One step of a run, taken out of the run. */
  lemma RunStep(ss: seq<Session>, ops: seq<PoolOp>, k: nat)
    requires IsPoolRun(ss, ops) && k < |ops|
    ensures Coherent(ss[k].pool, ss[k].unsaved) && Allowed(ss[k], ops[k]) && ss[k + 1] == PoolStep(ss[k], ops[k])
  {
  }

  lemma LastAfter(ss: seq<Session>, ops: seq<PoolOp>, k: nat, q: nat)
    requires k < |ops| && |ss| == |ops| + 1
    ensures LastFetch(ss, ops, k + 1, q) == if Fetches(ss, ops, k, q) then k + 1 else LastFetch(ss, ops, k, q)
  {
  }

  lemma LastAfterFetch(ss: seq<Session>, ops: seq<PoolOp>, k: nat, p: nat)
    requires k < |ops| && |ss| == |ops| + 1 && Fetches(ss, ops, k, p)
    ensures forall q: nat :: LastFetches(ss, ops, k + 1)(q) == if q == p then k + 1 else LastFetches(ss, ops, k)(q)
  {
    var last, last' := LastFetches(ss, ops, k), LastFetches(ss, ops, k + 1);
    forall q: nat ensures last'(q) == if q == p then k + 1 else last(q) { LastAfter(ss, ops, k, q); }
  }

  lemma LastAfterQuiet(ss: seq<Session>, ops: seq<PoolOp>, k: nat)
    requires k < |ops| && |ss| == |ops| + 1
    requires ops[k].FetchOp? ==> ops[k].page !in ss[k + 1].pool.table
    ensures forall q: nat :: LastFetches(ss, ops, k + 1)(q) == LastFetches(ss, ops, k)(q)
  {
    var last, last' := LastFetches(ss, ops, k), LastFetches(ss, ops, k + 1);
    forall q: nat ensures last'(q) == last(q) { LastAfter(ss, ops, k, q); }
  }

  lemma FetchTimes(s: Session, p: nat, s': Session, last: nat -> nat, last': nat -> nat, now: nat)
    requires Coherent(s.pool, s.unsaved) && Allowed(s, FetchOp(p)) && s' == PoolStep(s, FetchOp(p))
    requires p in s'.pool.table && OrderedAs(s.pool.table, s.pool.lru.position, last)
    requires forall q: nat :: last(q) < now && last'(q) == if q == p then now else last(q)
    ensures OrderedAs(s'.pool.table, s'.pool.lru.position, last')
  {
    FetchStep(s, p);
    OrderedAfter(s.pool.table, s.pool.lru.position, last, s'.pool.table, s'.pool.lru.position, last', p, now);
  }

  lemma QuietTimes(s: Session, op: PoolOp, s': Session, last: nat -> nat, last': nat -> nat)
    requires Coherent(s.pool, s.unsaved) && Allowed(s, op) && s' == PoolStep(s, op)
    requires (op.FetchOp? ==> op.page !in s'.pool.table) && OrderedAs(s.pool.table, s.pool.lru.position, last)
    requires forall q: nat :: last'(q) == last(q)
    ensures OrderedAs(s'.pool.table, s'.pool.lru.position, last')
  {
    QuietStep(s, op);
  }

  lemma StepTimes(ss: seq<Session>, ops: seq<PoolOp>, k: nat)
    requires IsPoolRun(ss, ops) && k < |ops| && TimesAreFetches(ss, ops, k)
    ensures TimesAreFetches(ss, ops, k + 1)
  {
    RunStep(ss, ops, k);
    var last, last' := LastFetches(ss, ops, k), LastFetches(ss, ops, k + 1);
    if ops[k].FetchOp? && ops[k].page in ss[k + 1].pool.table {
      LastAfterFetch(ss, ops, k, ops[k].page);
      FetchTimes(ss[k], ops[k].page, ss[k + 1], last, last', k + 1);
    } else {
      LastAfterQuiet(ss, ops, k);
      QuietTimes(ss[k], ops[k], ss[k + 1], last, last');
    }
  }

  lemma {:induction false} EveryRunTimesFetches(ss: seq<Session>, ops: seq<PoolOp>, k: nat)
    requires IsPoolRun(ss, ops) && ss[0].pool.table == map[] && k <= |ops|
    ensures TimesAreFetches(ss, ops, k)
  {
    if k > 0 {
      EveryRunTimesFetches(ss, ops, k - 1);
      StepTimes(ss, ops, k - 1);
    }
  }

  // ----- the page given up -----

  /** An unpinned cached page that every other unpinned one was fetched after. */
  ghost predicate LeastRecentlyFetched(ss: seq<Session>, ops: seq<PoolOp>, k: nat, v: nat)
    requires k <= |ops| && |ss| == |ops| + 1
  {
    var pool := ss[k].pool;
    && v in pool.table && PinsOf(pool, v) == 0
    && forall q: nat :: q in pool.table && PinsOf(pool, q) == 0 && q != v ==>
         LastFetch(ss, ops, k, v) < LastFetch(ss, ops, k, q)
  }

  /** The unpinned page with the oldest time. */
  ghost predicate OldestUnpinned(frames: Frames, table: Table, times: Times, v: nat) {
    && v in table && PinsIn(frames, table, v) == 0
    && forall q: nat :: q in table && PinsIn(frames, table, q) == 0 && q != v ==>
         TimeIn(table, times, v) < TimeIn(table, times, q)
  }

  lemma OldestFrameIsOldestPage(frames: Frames, table: Table, lru: Lru, f: nat)
    requires TableInverse(frames, table) && EntriesTrack(frames, lru.entries)
    requires f < |frames| && frames[f].inUse && IsOldestEvictable(lru, f)
    ensures OldestUnpinned(frames, table, lru.position, frames[f].pageId)
  {
    var v := frames[f].pageId;
    assert table[v] == f && f in EvictableFrames(lru.entries);
    forall q: nat | q in table && PinsIn(frames, table, q) == 0 && q != v
      ensures TimeIn(table, lru.position, v) < TimeIn(table, lru.position, q)
    {
      assert table[q] in EvictableFrames(lru.entries);
    }
  }

  lemma VictimPage(pool: Pool, unsaved: set<nat>)
    requires Coherent(pool, unsaved) && pool.freeList == [] && FreeFrame(pool).Some?
    ensures FreeFrame(pool).value.0 < |pool.frames|
    ensures OldestUnpinned(pool.frames, pool.table, pool.lru.position, pool.frames[FreeFrame(pool).value.0].pageId)
  {
    FreeFrameSound(pool);
    VictimIsOldest(pool.lru);
    OldestFrameIsOldestPage(pool.frames, pool.table, pool.lru, FreeFrame(pool).value.0);
  }

  lemma OldestIsLeastRecent(ss: seq<Session>, ops: seq<PoolOp>, k: nat, v: nat)
    requires k <= |ops| && |ss| == |ops| + 1 && TimesAreFetches(ss, ops, k)
    requires OldestUnpinned(ss[k].pool.frames, ss[k].pool.table, ss[k].pool.lru.position, v)
    ensures LeastRecentlyFetched(ss, ops, k, v)
  {
    var pool, last := ss[k].pool, LastFetches(ss, ops, k);
    forall q: nat | q in pool.table && PinsOf(pool, q) == 0 && q != v
      ensures LastFetch(ss, ops, k, v) < LastFetch(ss, ops, k, q)
    {
      assert last(v) < last(q);
    }
  }

  /** A hit changes nothing of what is cached. */
  lemma HitEvictsNothing(ss: seq<Session>, ops: seq<PoolOp>, k: nat, p: nat)
    requires IsPoolRun(ss, ops) && k < |ops| && ops[k] == FetchOp(p) && p in ss[k].pool.table
    ensures ss[k + 1].pool.table == ss[k].pool.table
  {
    RunStep(ss, ops, k);
    HitIsNewest(ss[k].pool, ss[k].unsaved, p);
  }

  /** What is cached after a miss. */
  lemma MissStep(s: Session, p: nat) returns (v: nat)
    requires Coherent(s.pool, s.unsaved) && Allowed(s, FetchOp(p)) && p !in s.pool.table
    requires p in PoolStep(s, FetchOp(p)).pool.table
    ensures s.pool.freeList != [] ==> PoolStep(s, FetchOp(p)).pool.table.Keys == s.pool.table.Keys + {p}
    ensures s.pool.freeList == [] ==>
      && PoolStep(s, FetchOp(p)).pool.table.Keys == s.pool.table.Keys - {v} + {p}
      && OldestUnpinned(s.pool.frames, s.pool.table, s.pool.lru.position, v)
  {
    var f, pool' := MissIsNewest(s.pool, s.unsaved, p);
    v := s.pool.frames[f].pageId;
    if s.pool.freeList == [] { VictimPage(s.pool, s.unsaved); }
  }

  /** Which pages are cached after a miss: none goes while a frame is free, and
      exactly the unpinned page fetched least recently when there is none. */
  lemma EvictsLeastRecentlyFetched(ss: seq<Session>, ops: seq<PoolOp>, k: nat, p: nat)
    requires IsPoolRun(ss, ops) && ss[0].pool.table == map[] && k < |ops|
    requires ops[k] == FetchOp(p) && p !in ss[k].pool.table && p in ss[k + 1].pool.table
    ensures ss[k].pool.freeList != [] ==> ss[k + 1].pool.table.Keys == ss[k].pool.table.Keys + {p}
    ensures ss[k].pool.freeList == [] ==>
      exists v :: LeastRecentlyFetched(ss, ops, k, v) &&
        ss[k + 1].pool.table.Keys == ss[k].pool.table.Keys - {v} + {p}
  {
    RunStep(ss, ops, k);
    var v := MissStep(ss[k], p);
    if ss[k].pool.freeList == [] {
      EveryRunTimesFetches(ss, ops, k);
      OldestIsLeastRecent(ss, ops, k, v);
    }
  }

  /** A frame is free exactly when it holds no page. */
  lemma FreeUnlessInUse(pool: Pool, unsaved: set<nat>)
    requires Coherent(pool, unsaved)
    ensures pool.freeList == [] <==> forall f :: 0 <= f < |pool.frames| ==> pool.frames[f].inUse
  {
    if pool.freeList != [] { assert pool.freeList[0] in pool.freeList; }
    forall f: nat | f < |pool.frames| && !pool.frames[f].inUse ensures f in pool.freeList { }
  }
}
