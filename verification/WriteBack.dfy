/** Which cached pages will be written back, said by the unpins alone: exactly
    those whose change was announced since they were read. */
module WriteBack {
  import opened Seqs
  import opened Disk
  import opened Replacer
  import opened BufferPool
  import opened EvictionOrder

  predicate DirtyIn(frames: Frames, table: Table, p: nat) {
    p in table && table[p] < |frames| && frames[table[p]].dirty
  }

  predicate Dirty(pool: Pool, p: nat) { DirtyIn(pool.frames, pool.table, p) }

  /** The operation takes a pin back and says that the page was changed. */
  predicate Announces(s: Session, op: PoolOp, p: nat) { op == UnpinOp(p, true) && PinsOf(s.pool, p) > 0 }

  lemma HitDirty(pool: Pool, unsaved: set<nat>, p: nat, q: nat)
    requires Coherent(pool, unsaved) && PageInFile(pool.disk.file, p) && p in pool.table
    ensures Fetch(pool, unsaved, p).Some? && Dirty(Fetch(pool, unsaved, p).value, q) == Dirty(pool, q)
  {
    MetaDirty(pool.frames, pool.table, p, PinAdded(pool.frames[pool.table[p]]), q);
  }

  lemma MetaDirty(frames: Frames, table: Table, p: nat, m: FrameMeta, q: nat)
    requires TableInverse(frames, table) && p in table
    ensures DirtyIn(frames[table[p] := m], table, q) == if q == p then m.dirty else DirtyIn(frames, table, q)
  {
    if q in table && q != p { assert frames[table[q]].pageId == q && frames[table[p]].pageId == p; }
  }

  lemma TakenFrames(pool: Pool, f: nat, lru: Lru, g: nat)
    requires f < |pool.frames| == |pool.pages| && g < |pool.frames|
    ensures |Taken(pool, f, lru).frames| == |pool.frames|
    ensures Taken(pool, f, lru).frames[g].dirty == pool.frames[g].dirty
  {
  }

  /** A page read into frame `f` is clean there; pages in other frames stay as they are. */
  lemma LoadDirty(frames: Frames, frames': Frames, table: Table, gone: set<nat>, f: nat, p: nat, q: nat)
    requires f < |frames| == |frames'| && forall g :: 0 <= g < |frames| ==> frames'[g].dirty == frames[g].dirty
    requires forall r :: r in table && r !in gone ==> table[r] != f
    requires q in (table - gone)[p := f]
    ensures DirtyIn(frames'[f := FrameMeta(p, 1, false, true)], (table - gone)[p := f], q) ==
      (q != p && DirtyIn(frames, table, q))
  {
  }

  lemma MissFrames(pool: Pool, unsaved: set<nat>, p: nat) returns (f: nat, lru: Lru, pool': Pool)
    requires Coherent(pool, unsaved) && PageInFile(pool.disk.file, p) && p !in pool.table && FreeFrame(pool).Some?
    ensures FreeFrame(pool) == Some((f, lru)) && f < |pool.frames| == |pool.pages|
    ensures Fetch(pool, unsaved, p) == Some(pool')
    ensures f < |Taken(pool, f, lru).frames|
    ensures pool'.frames == Taken(pool, f, lru).frames[f := FrameMeta(p, 1, false, true)]
  {
    FreeFrameSound(pool);
    f, lru := FreeFrame(pool).value.0, FreeFrame(pool).value.1;
    TakenFound(pool, unsaved, f, lru);
    pool' := Fetch(pool, unsaved, p).value;
  }

  lemma MissDirty(pool: Pool, unsaved: set<nat>, p: nat, q: nat)
    requires Coherent(pool, unsaved) && PageInFile(pool.disk.file, p) && p !in pool.table && FreeFrame(pool).Some?
    requires Fetch(pool, unsaved, p).Some? && q in Fetch(pool, unsaved, p).value.table
    ensures Dirty(Fetch(pool, unsaved, p).value, q) == (q != p && Dirty(pool, q))
  {
    var f, lru, pool' := MissFrames(pool, unsaved, p);
    var g, pool'' := MissIsNewest(pool, unsaved, p);
    forall h: nat | h < |pool.frames| ensures Taken(pool, f, lru).frames[h].dirty == pool.frames[h].dirty {
      TakenFrames(pool, f, lru, h);
    }
    if pool.freeList != [] { TakenIsVacant(pool, unsaved); }
    OthersElsewhere(pool.frames, pool.table, pool.freeList, f);
    LoadDirty(pool.frames, Taken(pool, f, lru).frames, pool.table, Dropped(pool.frames, pool.freeList, f), f, p, q);
  }

  lemma FetchDirty(s: Session, p: nat, q: nat)
    requires Coherent(s.pool, s.unsaved) && Allowed(s, FetchOp(p)) && q in PoolStep(s, FetchOp(p)).pool.table
    ensures Dirty(PoolStep(s, FetchOp(p)).pool, q) == (q in s.pool.table && Dirty(s.pool, q))
  {
    if p in s.pool.table {
      HitDirty(s.pool, s.unsaved, p, q);
    } else if FreeFrame(s.pool).Some? {
      MissDirty(s.pool, s.unsaved, p, q);
    }
  }

  lemma UnpinDirty(s: Session, p: nat, dirty: bool, q: nat)
    requires Coherent(s.pool, s.unsaved) && Allowed(s, UnpinOp(p, dirty))
    ensures PoolStep(s, UnpinOp(p, dirty)).pool.table == s.pool.table
    ensures Dirty(PoolStep(s, UnpinOp(p, dirty)).pool, q) == (Dirty(s.pool, q) || Announces(s, UnpinOp(p, dirty), q))
  {
    if PinsOf(s.pool, p) > 0 {
      var m := s.pool.frames[s.pool.table[p]];
      MetaDirty(s.pool.frames, s.pool.table, p, PinTaken(m, dirty), q);
    }
  }

  lemma StepDirty(s: Session, op: PoolOp, q: nat)
    requires Coherent(s.pool, s.unsaved) && Allowed(s, op) && q in PoolStep(s, op).pool.table
    ensures Dirty(PoolStep(s, op).pool, q) == (q in s.pool.table && (Dirty(s.pool, q) || Announces(s, op, q)))
  {
    match op
    case FetchOp(p) => FetchDirty(s, p, q);
    case UnpinOp(p, dirty) => UnpinDirty(s, p, dirty, q);
    case ChangeOp(p, data) =>
  }

  // ----- every run -----

  /** Cached without a break from state `i` to state `k`. */
  predicate CachedSince(ss: seq<Session>, i: nat, k: nat, p: nat)
    requires k < |ss|
  {
    forall j :: i <= j <= k ==> p in ss[j].pool.table
  }

  /** Some operation announced a change to the page and it has stayed cached since. */
  predicate AnnouncedSinceRead(ss: seq<Session>, ops: seq<PoolOp>, k: nat, p: nat)
    requires k <= |ops| && |ss| == |ops| + 1
  {
    exists i :: 0 <= i < k && Announces(ss[i], ops[i], p) && CachedSince(ss, i, k, p)
  }

  lemma AnnouncedNext(ss: seq<Session>, ops: seq<PoolOp>, k: nat, p: nat)
    requires k < |ops| && |ss| == |ops| + 1 && p in ss[k + 1].pool.table
    ensures AnnouncedSinceRead(ss, ops, k + 1, p) <==>
      p in ss[k].pool.table && (AnnouncedSinceRead(ss, ops, k, p) || Announces(ss[k], ops[k], p))
  {
    if i :| 0 <= i < k && Announces(ss[i], ops[i], p) && CachedSince(ss, i, k, p) {
      assert CachedSince(ss, i, k + 1, p);
    }
    if p in ss[k].pool.table && Announces(ss[k], ops[k], p) { assert CachedSince(ss, k, k + 1, p); }
    if i :| 0 <= i < k + 1 && Announces(ss[i], ops[i], p) && CachedSince(ss, i, k + 1, p) {
      if i < k { assert CachedSince(ss, i, k, p); }
    }
  }

  /** If the page is cached, it is marked for write-back exactly when a change to
      it was announced since it was read. */
  predicate MarkedRight(ss: seq<Session>, ops: seq<PoolOp>, k: nat, p: nat)
    requires k <= |ops| && |ss| == |ops| + 1
  {
    p in ss[k].pool.table ==> (Dirty(ss[k].pool, p) <==> AnnouncedSinceRead(ss, ops, k, p))
  }

  lemma MarkedNext(ss: seq<Session>, ops: seq<PoolOp>, k: nat, p: nat)
    requires IsPoolRun(ss, ops) && k < |ops| && MarkedRight(ss, ops, k, p)
    ensures MarkedRight(ss, ops, k + 1, p)
  {
    if p in ss[k + 1].pool.table {
      RunStep(ss, ops, k);
      DirtyAfter(ss[k], ops[k], ss[k + 1], p);
      AnnouncedNext(ss, ops, k, p);
    }
  }

  /** So it is in every state of every run. */
  lemma {:induction false} DirtyIffAnnounced(ss: seq<Session>, ops: seq<PoolOp>, k: nat, p: nat)
    requires IsPoolRun(ss, ops) && ss[0].pool.table == map[] && k <= |ops|
    ensures MarkedRight(ss, ops, k, p)
  {
    if k > 0 {
      DirtyIffAnnounced(ss, ops, k - 1, p);
      MarkedNext(ss, ops, k - 1, p);
    }
  }

  lemma DirtyAfter(s: Session, op: PoolOp, s': Session, q: nat)
    requires Coherent(s.pool, s.unsaved) && Allowed(s, op) && s' == PoolStep(s, op) && q in s'.pool.table
    ensures Dirty(s'.pool, q) == (q in s.pool.table && (Dirty(s.pool, q) || Announces(s, op, q)))
  {
    StepDirty(s, op, q);
  }
}
