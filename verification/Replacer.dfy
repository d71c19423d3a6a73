/** The LRU replacer of the buffer pool: which frame to give up next. */
module Replacer {
  import opened Seqs

  type Frame = int

  /** A list node. Its identity, which the position map keeps, is the moment of
      the access that created it. */
  datatype Node = Node(time: nat, frame: Frame)

  function FramesOf(order: seq<Node>): set<Frame> { set n | n in order :: n.frame }

  function EvictableFrames(entries: map<Frame, bool>): set<Frame> { set f | f in entries && entries[f] }

  /** Oldest access first, every access before `now`. */
  predicate Chronological(order: seq<Node>, now: nat) {
    && (forall i :: 0 <= i < |order| ==> order[i].time < now)
    && (forall i, j :: 0 <= i < j < |order| ==> order[i].time < order[j].time)
  }

  predicate OncePerFrame(order: seq<Node>) {
    forall i, j :: 0 <= i < j < |order| ==> order[i].frame != order[j].frame
  }

  /** The list, the position map and the entries describe the same frames. */
  ghost predicate Agree(order: seq<Node>, position: map<Frame, nat>, entries: map<Frame, bool>) {
    && FramesOf(order) == position.Keys == entries.Keys
    && (forall n :: n in order ==> n.frame in position && position[n.frame] == n.time)
  }

  function Erased(order: seq<Node>, time: nat): seq<Node> { Filter(order, (n: Node) => n.time != time) }

  lemma {:induction false} FilterIndices(order: seq<Node>, p: Node -> bool, now: nat)
    requires Chronological(order, now) && OncePerFrame(order)
    ensures Chronological(Filter(order, p), now) && OncePerFrame(Filter(order, p))
  {
    if order != [] {
      var init, last := order[..|order| - 1], order[|order| - 1];
      FilterIndices(init, p, now);
      FilterMembers(init, p);
      if p(last) {
        var kept := Filter(init, p);
        forall i | 0 <= i < |kept| ensures kept[i].time < last.time && kept[i].frame != last.frame {
          assert kept[i] in kept && kept[i] in init;
          var j :| 0 <= j < |init| && init[j] == kept[i];
          assert order[j] == init[j];
        }
      }
    }
  }

  lemma {:induction false} ErasedHolds(order: seq<Node>, time: nat)
    ensures forall n :: n in Erased(order, time) <==> n in order && n.time != time
  {
    FilterMembers(order, (n: Node) => n.time != time);
  }

  lemma TimeNamesFrame(order: seq<Node>, position: map<Frame, nat>, entries: map<Frame, bool>, now: nat, f: Frame,
                       n: Node)
    requires Chronological(order, now) && Agree(order, position, entries) && f in position && n in order
    ensures n.frame == f <==> n.time == position[f]
  {
    assert f in FramesOf(order);
    var m :| m in order && m.frame == f;
    var i :| 0 <= i < |order| && order[i] == n;
    var j :| 0 <= j < |order| && order[j] == m;
  }

  /** Erasing a frame's node removes exactly that frame. */
  lemma EraseFrame(order: seq<Node>, position: map<Frame, nat>, entries: map<Frame, bool>, now: nat, f: Frame)
    requires Chronological(order, now) && OncePerFrame(order) && Agree(order, position, entries) && f in position
    ensures Chronological(Erased(order, position[f]), now) && OncePerFrame(Erased(order, position[f]))
    ensures FramesOf(Erased(order, position[f])) == position.Keys - {f}
    ensures forall n :: n in Erased(order, position[f]) <==> n in order && n.frame != f
  {
    var kept := Erased(order, position[f]);
    FilterIndices(order, (n: Node) => n.time != position[f], now);
    ErasedHolds(order, position[f]);
    forall n | n in order ensures n.frame == f <==> n.time == position[f] {
      TimeNamesFrame(order, position, entries, now, f, n);
    }
    forall g | g in position.Keys - {f} ensures g in FramesOf(kept) {
      assert g in FramesOf(order);
      var n :| n in order && n.frame == g;
      assert n in kept;
    }
  }

  /** The replacer's bookkeeping. */
  datatype Lru = Lru(order: seq<Node>, position: map<Frame, nat>, entries: map<Frame, bool>, evictableCount: nat,
                     clock: nat)

  /** The invariant of every run: one duplicate-free frame set in all three
      structures, in order of last access, with a correct evictable count. */
  ghost predicate Sound(s: Lru) {
    && Chronological(s.order, s.clock) && OncePerFrame(s.order)
    && Agree(s.order, s.position, s.entries)
    && s.evictableCount == |EvictableFrames(s.entries)|
  }

  function Recorded(s: Lru, f: Frame): Lru {
    Lru(OthersThan(s, f) + [Node(s.clock, f)], s.position[f := s.clock],
        EntriesAfter(s, f), s.evictableCount, s.clock + 1)
  }

  function Marked(s: Lru, f: Frame, value: bool): Lru
    requires f in s.entries && (s.entries[f] && !value ==> s.evictableCount > 0)
  {
    if s.entries[f] == value then s
    else s.(entries := s.entries[f := value],
            evictableCount := if value then s.evictableCount + 1 else s.evictableCount - 1)
  }

  function Removed(s: Lru, f: Frame): Lru
    requires f in s.position && s.evictableCount > 0
  {
    Lru(Erased(s.order, s.position[f]), s.position - {f}, s.entries - {f}, s.evictableCount - 1, s.clock)
  }

  lemma AppendNode(order: seq<Node>, now: nat, f: Frame)
    requires Chronological(order, now) && OncePerFrame(order) && f !in FramesOf(order)
    ensures Chronological(order + [Node(now, f)], now + 1) && OncePerFrame(order + [Node(now, f)])
    ensures FramesOf(order + [Node(now, f)]) == FramesOf(order) + {f}
  {
    var order' := order + [Node(now, f)];
    forall i | 0 <= i < |order| ensures order[i].frame != f { assert order[i] in order; }
    forall n | n in order' ensures n.frame in FramesOf(order) + {f} { }
    assert order'[|order|] in order';
    forall g | g in FramesOf(order) ensures g in FramesOf(order') {
      var n :| n in order && n.frame == g;
      assert n in order';
    }
  }

  /** The list without the accessed frame. */
  function OthersThan(s: Lru, f: Frame): seq<Node> {
    if f in s.position then Erased(s.order, s.position[f]) else s.order
  }

  lemma OthersHold(s: Lru, f: Frame)
    requires Sound(s)
    ensures Chronological(OthersThan(s, f), s.clock) && OncePerFrame(OthersThan(s, f))
    ensures FramesOf(OthersThan(s, f)) == s.position.Keys - {f}
    ensures forall n :: n in OthersThan(s, f) ==> n in s.order && n.frame != f
  {
    if f in s.position {
      EraseFrame(s.order, s.position, s.entries, s.clock, f);
    } else {
      forall n | n in s.order ensures n.frame != f { assert n.frame in FramesOf(s.order); }
    }
  }

  lemma AgreeExtended(rest: seq<Node>, position: map<Frame, nat>, entries: map<Frame, bool>, now: nat, f: Frame)
    requires FramesOf(rest + [Node(now, f)]) == position.Keys + {f} == entries.Keys
    requires forall n :: n in rest ==> n.frame != f && n.frame in position && position[n.frame] == n.time
    ensures Agree(rest + [Node(now, f)], position[f := now], entries)
  {
    var order := rest + [Node(now, f)];
    forall n | n in order ensures n.frame in position[f := now] && position[f := now][n.frame] == n.time {
      if n in rest { }
    }
  }

  function EntriesAfter(s: Lru, f: Frame): map<Frame, bool> {
    if f in s.position then s.entries else s.entries[f := false]
  }

  lemma EntriesAfterHold(s: Lru, f: Frame)
    requires s.position.Keys == s.entries.Keys
    ensures EntriesAfter(s, f).Keys == s.position.Keys + {f}
    ensures EvictableFrames(EntriesAfter(s, f)) == EvictableFrames(s.entries)
  {
    assert f in s.position <==> f in s.position.Keys;
    assert f in s.entries <==> f in s.entries.Keys;
  }

  lemma RecordedAgree(s: Lru, f: Frame)
    requires Sound(s)
    ensures Agree(Recorded(s, f).order, Recorded(s, f).position, Recorded(s, f).entries)
  {
    var rest := OthersThan(s, f);
    OthersHold(s, f);
    AppendNode(rest, s.clock, f);
    EntriesAfterHold(s, f);
    assert s.position.Keys - {f} + {f} == s.position.Keys + {f};
    AgreeExtended(rest, s.position, EntriesAfter(s, f), s.clock, f);
  }

  /** An access makes the frame the most recent one. */
  lemma RecordedIsNewest(s: Lru, f: Frame, g: Frame)
    requires Sound(s) && g in s.position && g != f
    ensures Recorded(s, f).position[g] < Recorded(s, f).position[f]
  {
    assert g in FramesOf(s.order);
    var n :| n in s.order && n.frame == g;
    var i :| 0 <= i < |s.order| && s.order[i] == n;
  }

  lemma RecordedSound(s: Lru, f: Frame)
    requires Sound(s)
    ensures Sound(Recorded(s, f))
  {
    OthersHold(s, f);
    AppendNode(OthersThan(s, f), s.clock, f);
    RecordedAgree(s, f);
    EntriesAfterHold(s, f);
  }

  lemma MarkedSound(s: Lru, f: Frame, value: bool)
    requires Sound(s) && f in s.entries
    ensures s.entries[f] && !value ==> s.evictableCount > 0
    ensures Sound(Marked(s, f, value)) && Marked(s, f, value).entries == s.entries[f := value]
  {
    var before, after := EvictableFrames(s.entries), EvictableFrames(s.entries[f := value]);
    if s.entries[f] == value {
      assert s.entries == s.entries[f := value];
    } else if value {
      assert after == before + {f};
    } else {
      assert f in before && after == before - {f};
    }
  }

  lemma RemovedSound(s: Lru, f: Frame)
    requires Sound(s) && f in s.entries && s.entries[f]
    ensures f in s.position && s.evictableCount > 0 && Sound(Removed(s, f))
  {
    assert f in s.position.Keys;
    EraseFrame(s.order, s.position, s.entries, s.clock, f);
    assert f in EvictableFrames(s.entries);
    assert EvictableFrames(s.entries - {f}) == EvictableFrames(s.entries) - {f};
  }

  /** The first evictable node of the list has the oldest access time of all evictable frames. */
  lemma OldestEvictable(s: Lru, i: nat)
    requires Sound(s) && i < |s.order| && s.order[i].frame in s.entries && s.entries[s.order[i].frame]
    requires forall j :: 0 <= j < i ==> s.order[j].frame in s.entries && !s.entries[s.order[j].frame]
    ensures IsOldestEvictable(s, s.order[i].frame)
  {
    assert s.order[i] in s.order;
    forall g | g in EvictableFrames(s.entries) && g != s.order[i].frame
      ensures g in s.position && s.position[s.order[i].frame] < s.position[g]
    {
      assert g in FramesOf(s.order);
      var n :| n in s.order && n.frame == g;
      var j :| 0 <= j < |s.order| && s.order[j] == n;
    }
  }

  /** The first evictable frame in list order. */
  function FirstEvictable(order: seq<Node>, entries: map<Frame, bool>): Option<Frame> {
    if order == [] then None
    else if order[0].frame in entries && entries[order[0].frame] then Some(order[0].frame)
    else FirstEvictable(order[1..], entries)
  }

  function Victim(s: Lru): Option<Frame> { FirstEvictable(s.order, s.entries) }

  lemma {:induction false} FirstEvictableAt(order: seq<Node>, entries: map<Frame, bool>, i: nat)
    requires i <= |order| && forall j :: 0 <= j < i ==> !(order[j].frame in entries && entries[order[j].frame])
    ensures i == |order| ==> FirstEvictable(order, entries) == None
    ensures i < |order| && order[i].frame in entries && entries[order[i].frame] ==>
      FirstEvictable(order, entries) == Some(order[i].frame)
  {
    if i > 0 { FirstEvictableAt(order[1..], entries, i - 1); }
  }

  lemma {:induction false} FirstEvictableFound(order: seq<Node>, entries: map<Frame, bool>) returns (i: nat)
    ensures i <= |order| && forall j :: 0 <= j < i ==> !(order[j].frame in entries && entries[order[j].frame])
    ensures i < |order| ==> order[i].frame in entries && entries[order[i].frame]
  {
    i := 0;
    while i < |order| && !(order[i].frame in entries && entries[order[i].frame])
      invariant i <= |order| && forall j :: 0 <= j < i ==> !(order[j].frame in entries && entries[order[j].frame])
    {
      i := i + 1;
    }
  }

  /** The victim is the least recently used evictable frame, and there is none
      exactly when no frame is evictable. */
  lemma VictimIsOldest(s: Lru)
    requires Sound(s)
    ensures Victim(s).None? <==> EvictableFrames(s.entries) == {}
    ensures Victim(s).Some? ==> IsOldestEvictable(s, Victim(s).value)
  {
    var i := FirstEvictableFound(s.order, s.entries);
    FirstEvictableAt(s.order, s.entries, i);
    forall j | 0 <= j < |s.order| ensures s.order[j].frame in s.entries {
      assert s.order[j] in s.order && s.order[j].frame in FramesOf(s.order);
    }
    if i == |s.order| { NoneEvictable(s); } else { OldestEvictable(s, i); }
  }

  ghost predicate IsOldestEvictable(s: Lru, f: Frame) {
    && f in EvictableFrames(s.entries) && f in s.position
    && forall g :: g in EvictableFrames(s.entries) && g != f ==> g in s.position && s.position[f] < s.position[g]
  }

  lemma NoneEvictable(s: Lru)
    requires Sound(s) && forall j :: 0 <= j < |s.order| ==>
      s.order[j].frame in s.entries && !s.entries[s.order[j].frame]
    ensures EvictableFrames(s.entries) == {}
  {
    forall f | f in s.entries ensures !s.entries[f] {
      assert f in FramesOf(s.order);
      var n :| n in s.order && n.frame == f;
      var j :| 0 <= j < |s.order| && s.order[j] == n;
    }
  }

  class LruReplacer {
    var state: Lru

    ghost predicate Valid()
      reads this
    {
      Sound(state)
    }

    constructor ()
      ensures Valid() && state == Lru([], map[], map[], 0, 0)
    {
      state := Lru([], map[], map[], 0, 0);
      new;
      assert EvictableFrames(state.entries) == {};
    }

    /** The frame becomes the most recent; a new one starts out not evictable,
        a known one stays as evictable as it was. */
    method RecordAccess(f: Frame)
      requires Valid()
      modifies this
      ensures Valid() && state == Recorded(old(state), f)
      ensures f in state.position
      ensures forall g :: g in old(state).position && g != f ==>
        g in state.position && state.position[g] == old(state).position[g] < state.position[f]
      ensures f in state.entries
      ensures state.entries[f] == (f in old(state).entries && old(state).entries[f])
    {
      RecordedSound(state, f);
      forall g | g in state.position && g != f ensures Recorded(state, f).position[g] < Recorded(state, f).position[f] {
        RecordedIsNewest(state, f, g);
      }
      var order, entries := state.order, state.entries;
      if f in state.position {
        order := Erased(order, state.position[f]);
      } else {
        entries := entries[f := false];
      }
      order := order + [Node(state.clock, f)];
      state := Lru(order, state.position[f := state.clock], entries, state.evictableCount, state.clock + 1);
    }

    /** False is the out_of_range thrown for a frame never recorded. */
    method SetEvictable(f: Frame, value: bool) returns (known: bool)
      requires Valid()
      modifies this
      ensures Valid() && known == (f in old(state).entries)
      ensures state == if known then (MarkedSound(old(state), f, value); Marked(old(state), f, value)) else old(state)
    {
      if f !in state.entries {
        return false;
      }
      MarkedSound(state, f, value);
      if state.entries[f] != value {
        state := state.(entries := state.entries[f := value],
                        evictableCount := if value then state.evictableCount + 1 else state.evictableCount - 1);
      }
      return true;
    }

    /** The victim is the evictable frame whose last access is oldest; there is
        none exactly when no frame is evictable. */
    method Evict() returns (victim: Option<Frame>)
      requires Valid()
      modifies this
      ensures Valid()
      ensures victim == Victim(old(state))
      ensures victim.None? <==> EvictableFrames(old(state).entries) == {}
      ensures victim.Some? ==> IsOldestEvictable(old(state), victim.value)
      ensures state == if victim.None? then old(state)
        else (RemovedSound(old(state), victim.value); Removed(old(state), victim.value))
    {
      VictimIsOldest(state);
      var order := state.order;
      for i := 0 to |order|
        invariant state == old(state)
        invariant forall j :: 0 <= j < i ==> order[j].frame in state.entries && !state.entries[order[j].frame]
      {
        var f := order[i].frame;
        assert order[i] in order && f in FramesOf(order);
        if state.entries[f] {
          FirstEvictableAt(order, state.entries, i);
          RemovedSound(state, f);
          state := Removed(state, f);
          return Some(f);
        }
      }
      FirstEvictableAt(order, state.entries, |order|);
      victim := None;
    }

    /** False is the runtime_error thrown for a frame that is in use. */
    method Remove(f: Frame) returns (ok: bool)
      requires Valid()
      modifies this
      ensures Valid() && ok == (f in old(state).entries ==> old(state).entries[f])
      ensures state == if f in old(state).entries && ok
        then (RemovedSound(old(state), f); Removed(old(state), f)) else old(state)
    {
      if f !in state.entries {
        return true;
      }
      if !state.entries[f] {
        return false;
      }
      RemovedSound(state, f);
      state := Removed(state, f);
      return true;
    }
  }
}
