/** Sequence vocabulary shared by the reference semantics and the operators:
    filtering, mapping, flattening and the nested-loop product, each with the
    laws that the plan rewrites rely on. All of them recurse on the last
    element, the way the engine's loops extend their output. */
module Seqs {

  datatype Option<+T> = None | Some(value: T) {
    predicate IsFailure() { None? }
    function PropagateFailure<U>(): Option<U> requires None? { None }
    function Extract(): T requires Some? { value }
  }

  function Filter<T>(s: seq<T>, p: T -> bool): seq<T>
  {
    if s == [] then []
    else
      var last := s[|s| - 1];
      var kept := Filter(s[..|s| - 1], p);
      if p(last) then kept + [last] else kept
  }

  function Map<T, U>(s: seq<T>, f: T -> U): (r: seq<U>)
    ensures |r| == |s|
    ensures forall i :: 0 <= i < |s| ==> r[i] == f(s[i])
  {
    seq(|s|, i requires 0 <= i < |s| => f(s[i]))
  }

  function Flatten<T>(ss: seq<seq<T>>): seq<T>
  {
    if ss == [] then [] else Flatten(ss[..|ss| - 1]) + ss[|ss| - 1]
  }

  /** The matches of one outer element, in the order of the inner sequence. */
  function Matches<A, B, C>(a: A, bs: seq<B>, m: (A, B) -> bool, f: (A, B) -> C): seq<C>
  {
    if bs == [] then []
    else
      var last := bs[|bs| - 1];
      var found := Matches(a, bs[..|bs| - 1], m, f);
      if m(a, last) then found + [f(a, last)] else found
  }

  /** For each outer element in order, its matches in inner order. */
  function NestedLoop<A, B, C>(as_: seq<A>, bs: seq<B>, m: (A, B) -> bool, f: (A, B) -> C): seq<C>
  {
    if as_ == [] then []
    else NestedLoop(as_[..|as_| - 1], bs, m, f) + Matches(as_[|as_| - 1], bs, m, f)
  }

  /** The elements of `s`, each once, in order of first appearance. */
  function Distinct<T(==)>(s: seq<T>): seq<T>
  {
    if s == [] then []
    else
      var rest := Distinct(s[..|s| - 1]);
      if s[|s| - 1] in rest then rest else rest + [s[|s| - 1]]
  }

  /** The images of the elements, one after the other. */
  function ConcatMap<T, U>(s: seq<T>, f: T -> seq<U>): seq<U>
  {
    if s == [] then [] else ConcatMap(s[..|s| - 1], f) + f(s[|s| - 1])
  }

  lemma ConcatMapSnoc<T, U>(s: seq<T>, x: T, f: T -> seq<U>)
    ensures ConcatMap(s + [x], f) == ConcatMap(s, f) + f(x)
  {
    assert (s + [x])[..|s|] == s;
  }

  lemma {:induction false} ConcatMapConcat<T, U>(a: seq<T>, b: seq<T>, f: T -> seq<U>)
    ensures ConcatMap(a + b, f) == ConcatMap(a, f) + ConcatMap(b, f)
  {
    if b == [] {
      assert a + b == a;
    } else {
      ConcatMapConcat(a, b[..|b| - 1], f);
      assert (a + b)[..|a + b| - 1] == a + b[..|b| - 1];
    }
  }

  lemma ConcatMapHead<T, U>(s: seq<T>, f: T -> seq<U>)
    requires s != []
    ensures ConcatMap(s, f) == f(s[0]) + ConcatMap(s[1..], f)
  {
    ConcatMapConcat([s[0]], s[1..], f);
    assert s == [s[0]] + s[1..];
    ConcatMapSnoc([], s[0], f);
    assert [] + [s[0]] == [s[0]];
    assert ConcatMap([], f) + f(s[0]) == f(s[0]);
  }

  lemma {:induction false} ConcatMapMember<T, U>(s: seq<T>, f: T -> seq<U>, y: U)
    requires y in ConcatMap(s, f)
    ensures exists x :: x in s && y in f(x)
  {
    var init, last := s[..|s| - 1], s[|s| - 1];
    if y in f(last) {
      assert last in s;
    } else {
      ConcatMapMember(init, f, y);
      var x :| x in init && y in f(x);
      assert x in s;
    }
  }

  lemma Assoc<T>(a: seq<T>, b: seq<T>, c: seq<T>)
    ensures (a + b) + c == a + (b + c)
  {
  }

  lemma PlusEmpty<T>(a: seq<T>)
    ensures a + [] == a && [] + a == a
  {
  }

  lemma SplitLast<T>(s: seq<T>)
    requires s != []
    ensures s == s[..|s| - 1] + [s[|s| - 1]]
  {
  }

  lemma SliceGrows<T>(s: seq<T>, from: nat, to: nat)
    requires from <= to < |s|
    ensures s[from..to] + [s[to]] == s[from..to + 1]
  {
  }

  lemma {:induction false} FilterMember<T>(s: seq<T>, p: T -> bool, x: T)
    ensures x in Filter(s, p) <==> x in s && p(x)
  {
    if s != [] {
      SplitLast(s);
      FilterMember(s[..|s| - 1], p, x);
    }
  }

  lemma FilterMembers<T(!new)>(s: seq<T>, p: T -> bool)
    ensures forall x :: x in Filter(s, p) <==> x in s && p(x)
  {
    forall x ensures x in Filter(s, p) <==> x in s && p(x) { FilterMember(s, p, x); }
  }

  lemma {:induction false} DistinctMember<T>(s: seq<T>, x: T)
    ensures x in Distinct(s) <==> x in s
  {
    if s != [] {
      SplitLast(s);
      DistinctMember(s[..|s| - 1], x);
      DistinctMember(s[..|s| - 1], s[|s| - 1]);
    }
  }

  lemma {:induction false} DistinctUnique<T>(s: seq<T>)
    ensures forall i, j :: 0 <= i < j < |Distinct(s)| ==> Distinct(s)[i] != Distinct(s)[j]
  {
    if s != [] { DistinctUnique(s[..|s| - 1]); }
  }

  lemma {:induction false} FilterConcat<T>(a: seq<T>, b: seq<T>, p: T -> bool)
    ensures Filter(a + b, p) == Filter(a, p) + Filter(b, p)
  {
    if b == [] {
      assert a + b == a;
    } else {
      FilterConcat(a, b[..|b| - 1], p);
      assert (a + b)[..|a + b| - 1] == a + b[..|b| - 1];
    }
  }

  /** One more element: the step every filtering loop takes. */
  lemma FilterSnoc<T>(s: seq<T>, x: T, p: T -> bool)
    ensures Filter(s + [x], p) == if p(x) then Filter(s, p) + [x] else Filter(s, p)
  {
    assert (s + [x])[..|s|] == s;
  }

  lemma {:induction false} FilterSame<T>(s: seq<T>, p: T -> bool, q: T -> bool)
    requires forall x :: x in s ==> p(x) == q(x)
    ensures Filter(s, p) == Filter(s, q)
  {
    if s != [] {
      assert forall x :: x in s[..|s| - 1] ==> x in s;
      FilterSame(s[..|s| - 1], p, q);
    }
  }

  lemma {:induction false} FilterTwice<T>(s: seq<T>, p: T -> bool, q: T -> bool, both: T -> bool)
    requires forall x :: x in s ==> both(x) == (p(x) && q(x))
    ensures Filter(Filter(s, p), q) == Filter(s, both)
  {
    if s != [] {
      var init, last := s[..|s| - 1], s[|s| - 1];
      assert forall x :: x in init ==> x in s;
      FilterTwice(init, p, q, both);
      if p(last) { FilterSnoc(Filter(init, p), last, q); }
    }
  }

  lemma {:induction false} FilterAll<T>(s: seq<T>, p: T -> bool)
    requires forall x :: x in s ==> p(x)
    ensures Filter(s, p) == s
  {
    if s != [] {
      assert forall x :: x in s[..|s| - 1] ==> x in s;
      FilterAll(s[..|s| - 1], p);
    }
  }

  lemma {:induction false} FilterNone<T>(s: seq<T>, p: T -> bool)
    requires forall x :: x in s ==> !p(x)
    ensures Filter(s, p) == []
  {
    if s != [] {
      assert forall x :: x in s[..|s| - 1] ==> x in s;
      FilterNone(s[..|s| - 1], p);
    }
  }

  lemma MapSnoc<T, U>(s: seq<T>, x: T, f: T -> U)
    ensures Map(s + [x], f) == Map(s, f) + [f(x)]
  {
  }

  lemma {:induction false} FilterMap<T, U>(s: seq<T>, f: T -> U, p: T -> bool, q: U -> bool)
    requires forall x :: x in s ==> q(f(x)) == p(x)
    ensures Filter(Map(s, f), q) == Map(Filter(s, p), f)
  {
    if s != [] {
      var init, last := s[..|s| - 1], s[|s| - 1];
      assert forall x :: x in init ==> x in s;
      FilterMap(init, f, p, q);
      SplitLast(s);
      MapSnoc(init, last, f);
      FilterSnoc(Map(init, f), f(last), q);
      MapSnoc(Filter(init, p), last, f);
    }
  }

  lemma MapConcat<T, U>(a: seq<T>, b: seq<T>, f: T -> U)
    ensures Map(a + b, f) == Map(a, f) + Map(b, f)
  {
  }

  lemma MapSame<T, U>(s: seq<T>, f: T -> U, g: T -> U)
    requires forall x :: x in s ==> f(x) == g(x)
    ensures Map(s, f) == Map(s, g)
  {
  }

  lemma {:induction false} FlattenConcat<T>(a: seq<seq<T>>, b: seq<seq<T>>)
    ensures Flatten(a + b) == Flatten(a) + Flatten(b)
  {
    if b == [] {
      assert a + b == a;
    } else {
      FlattenConcat(a, b[..|b| - 1]);
      assert (a + b)[..|a + b| - 1] == a + b[..|b| - 1];
    }
  }

  lemma FlattenSnoc<T>(ss: seq<seq<T>>, s: seq<T>)
    ensures Flatten(ss + [s]) == Flatten(ss) + s
  {
    assert (ss + [s])[..|ss|] == ss;
  }

  lemma MatchesSnoc<A, B, C>(a: A, bs: seq<B>, b: B, m: (A, B) -> bool, f: (A, B) -> C)
    ensures Matches(a, bs + [b], m, f)
         == if m(a, b) then Matches(a, bs, m, f) + [f(a, b)] else Matches(a, bs, m, f)
  {
    assert (bs + [b])[..|bs|] == bs;
  }

  lemma NestedLoopSnoc<A, B, C>(as_: seq<A>, a: A, bs: seq<B>, m: (A, B) -> bool, f: (A, B) -> C)
    ensures NestedLoop(as_ + [a], bs, m, f) == NestedLoop(as_, bs, m, f) + Matches(a, bs, m, f)
  {
    assert (as_ + [a])[..|as_|] == as_;
  }

  lemma {:induction false} NestedLoopConcat<A, B, C>(
      a1: seq<A>, a2: seq<A>, bs: seq<B>, m: (A, B) -> bool, f: (A, B) -> C)
    ensures NestedLoop(a1 + a2, bs, m, f) == NestedLoop(a1, bs, m, f) + NestedLoop(a2, bs, m, f)
  {
    if a2 == [] {
      assert a1 + a2 == a1;
    } else {
      NestedLoopConcat(a1, a2[..|a2| - 1], bs, m, f);
      assert (a1 + a2)[..|a1 + a2| - 1] == a1 + a2[..|a2| - 1];
    }
  }

  /** A filter that reads only the outer element acts on all of its matches or none. */
  lemma {:induction false} FilterMatchesOuter<A, B, C>(
      a: A, bs: seq<B>, m: (A, B) -> bool, f: (A, B) -> C, q: C -> bool, p: bool)
    requires forall b :: b in bs && m(a, b) ==> q(f(a, b)) == p
    ensures Filter(Matches(a, bs, m, f), q) == if p then Matches(a, bs, m, f) else []
  {
    if bs != [] {
      var init, last := bs[..|bs| - 1], bs[|bs| - 1];
      assert forall b :: b in init ==> b in bs;
      FilterMatchesOuter(a, init, m, f, q, p);
      if m(a, last) { FilterSnoc(Matches(a, init, m, f), f(a, last), q); }
    }
  }

  /** Filtering the join on its left columns is joining the filtered left side. */
  lemma {:induction false} FilterLoopOuter<A, B, C>(
      as_: seq<A>, bs: seq<B>, m: (A, B) -> bool, f: (A, B) -> C, q: C -> bool, p: A -> bool)
    requires forall a, b :: a in as_ && b in bs ==> q(f(a, b)) == p(a)
    ensures Filter(NestedLoop(as_, bs, m, f), q) == NestedLoop(Filter(as_, p), bs, m, f)
  {
    if as_ != [] {
      var init, last := as_[..|as_| - 1], as_[|as_| - 1];
      assert forall a :: a in init ==> a in as_;
      FilterLoopOuter(init, bs, m, f, q, p);
      FilterMatchesOuter(last, bs, m, f, q, p(last));
      FilterConcat(NestedLoop(init, bs, m, f), Matches(last, bs, m, f), q);
      if p(last) { NestedLoopSnoc(Filter(init, p), last, bs, m, f); }
    }
  }

  lemma {:induction false} FilterMatchesInner<A, B, C>(
      a: A, bs: seq<B>, m: (A, B) -> bool, f: (A, B) -> C, q: C -> bool, p: B -> bool)
    requires forall b :: b in bs ==> q(f(a, b)) == p(b)
    ensures Filter(Matches(a, bs, m, f), q) == Matches(a, Filter(bs, p), m, f)
  {
    if bs != [] {
      var init, last := bs[..|bs| - 1], bs[|bs| - 1];
      assert forall b :: b in init ==> b in bs;
      FilterMatchesInner(a, init, m, f, q, p);
      if m(a, last) { FilterSnoc(Matches(a, init, m, f), f(a, last), q); }
      if p(last) { MatchesSnoc(a, Filter(init, p), last, m, f); }
    }
  }

  /** Filtering the join on its right columns is joining the filtered right side. */
  lemma {:induction false} FilterLoopInner<A, B, C>(
      as_: seq<A>, bs: seq<B>, m: (A, B) -> bool, f: (A, B) -> C, q: C -> bool, p: B -> bool)
    requires forall a, b :: a in as_ && b in bs ==> q(f(a, b)) == p(b)
    ensures Filter(NestedLoop(as_, bs, m, f), q) == NestedLoop(as_, Filter(bs, p), m, f)
  {
    if as_ != [] {
      var init, last := as_[..|as_| - 1], as_[|as_| - 1];
      assert forall a :: a in init ==> a in as_;
      FilterLoopInner(init, bs, m, f, q, p);
      FilterMatchesInner(last, bs, m, f, q, p);
      FilterConcat(NestedLoop(init, bs, m, f), Matches(last, bs, m, f), q);
    }
  }

  lemma {:induction false} MatchesMember<A, B, C>(a: A, bs: seq<B>, m: (A, B) -> bool, f: (A, B) -> C, c: C)
    requires c in Matches(a, bs, m, f)
    ensures exists b :: b in bs && m(a, b) && c == f(a, b)
  {
    var init, last := bs[..|bs| - 1], bs[|bs| - 1];
    if m(a, last) && c == f(a, last) {
    } else {
      MatchesMember(a, init, m, f, c);
      assert forall b :: b in init ==> b in bs;
    }
  }

  lemma {:induction false} NestedLoopMember<A, B, C>(
      as_: seq<A>, bs: seq<B>, m: (A, B) -> bool, f: (A, B) -> C, c: C)
    requires c in NestedLoop(as_, bs, m, f)
    ensures exists a, b :: a in as_ && b in bs && m(a, b) && c == f(a, b)
  {
    var init, last := as_[..|as_| - 1], as_[|as_| - 1];
    if c in Matches(last, bs, m, f) {
      MatchesMember(last, bs, m, f, c);
    } else {
      NestedLoopMember(init, bs, m, f, c);
      assert forall a :: a in init ==> a in as_;
    }
  }

  lemma {:induction false} MatchesHas<A, B, C>(a: A, bs: seq<B>, m: (A, B) -> bool, f: (A, B) -> C, b: B)
    requires b in bs && m(a, b)
    ensures f(a, b) in Matches(a, bs, m, f)
  {
    if b != bs[|bs| - 1] { MatchesHas(a, bs[..|bs| - 1], m, f, b); }
  }

  lemma {:induction false} NestedLoopHas<A, B, C>(
      as_: seq<A>, bs: seq<B>, m: (A, B) -> bool, f: (A, B) -> C, a: A, b: B)
    requires a in as_ && b in bs && m(a, b)
    ensures f(a, b) in NestedLoop(as_, bs, m, f)
  {
    if a == as_[|as_| - 1] {
      MatchesHas(a, bs, m, f, b);
    } else {
      NestedLoopHas(as_[..|as_| - 1], bs, m, f, a, b);
    }
  }

  lemma {:induction false} MapMatches<A, B, C, A', B', C'>(
      a: A, bs: seq<B>, m: (A, B) -> bool, f: (A, B) -> C,
      a': A', gb: B -> B', gc: C -> C', m': (A', B') -> bool, f': (A', B') -> C')
    requires forall b :: b in bs ==> m(a, b) == m'(a', gb(b))
    requires forall b :: b in bs ==> gc(f(a, b)) == f'(a', gb(b))
    ensures Map(Matches(a, bs, m, f), gc) == Matches(a', Map(bs, gb), m', f')
  {
    if bs != [] {
      var init, last := bs[..|bs| - 1], bs[|bs| - 1];
      assert forall b :: b in init ==> b in bs;
      MapMatches(a, init, m, f, a', gb, gc, m', f');
      SplitLast(bs);
      MapSnoc(init, last, gb);
      MatchesSnoc(a', Map(init, gb), gb(last), m', f');
      if m(a, last) { MapSnoc(Matches(a, init, m, f), f(a, last), gc); }
    }
  }

  /** A join of images is the image of the join: how a physical layout carries a logical join. */
  lemma {:induction false} MapLoop<A, B, C, A', B', C'>(
      as_: seq<A>, bs: seq<B>, m: (A, B) -> bool, f: (A, B) -> C,
      ga: A -> A', gb: B -> B', gc: C -> C', m': (A', B') -> bool, f': (A', B') -> C')
    requires forall a, b :: a in as_ && b in bs ==> m(a, b) == m'(ga(a), gb(b))
    requires forall a, b :: a in as_ && b in bs ==> gc(f(a, b)) == f'(ga(a), gb(b))
    ensures Map(NestedLoop(as_, bs, m, f), gc) == NestedLoop(Map(as_, ga), Map(bs, gb), m', f')
  {
    if as_ != [] {
      var init, last := as_[..|as_| - 1], as_[|as_| - 1];
      assert forall a :: a in init ==> a in as_;
      MapLoop(init, bs, m, f, ga, gb, gc, m', f');
      MapMatches(last, bs, m, f, ga(last), gb, gc, m', f');
      SplitLast(as_);
      MapSnoc(init, last, ga);
      NestedLoopSnoc(Map(init, ga), ga(last), Map(bs, gb), m', f');
      MapConcat(NestedLoop(init, bs, m, f), Matches(last, bs, m, f), gc);
    }
  }

  lemma {:induction false} FilterDistinct<T>(s: seq<T>, p: T -> bool)
    ensures Filter(Distinct(s), p) == Distinct(Filter(s, p))
  {
    if s != [] {
      var init, last := s[..|s| - 1], s[|s| - 1];
      FilterDistinct(init, p);
      DistinctMember(init, last);
      DistinctMember(Filter(init, p), last);
      FilterMember(init, p, last);
      if last !in Distinct(init) { FilterSnoc(Distinct(init), last, p); }
      if p(last) {
        assert (Filter(init, p) + [last])[..|Filter(init, p)|] == Filter(init, p);
      }
    }
  }

  lemma DistinctSnoc<T>(s: seq<T>, x: T)
    ensures Distinct(s + [x]) == if x in s then Distinct(s) else Distinct(s) + [x]
  {
    assert (s + [x])[..|s|] == s;
    DistinctMember(s, x);
  }
}
