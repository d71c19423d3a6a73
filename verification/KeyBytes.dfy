/** The bytes of a hash-join key, and what it means for two of them to be equal.
    The binder does not compare the types of the two columns of an equality, and
    the bytes carry no type, so keys of different types can be equal too. */
module KeyBytes {
  import opened Seqs
  import opened Types
  import opened ByteIO

  /** Four raw bytes for a number, length and bytes for a string. */
  function EncodeCell(d: Datum): Bytes {
    match d
    case IntD(i) => EncodeU32(ToU32(i))
    case FloatD(f) => EncodeU32(f)
    case StrD(s) => EncodeString(s)
    case _ => []
  }

  function CellCode(): Datum -> Bytes { (d: Datum) => EncodeCell(d) }
  function EncodeCells(ds: seq<Datum>): Bytes { ConcatMap(ds, CellCode()) }

  predicate NoNulls(ds: seq<Datum>) { forall d :: d in ds ==> d != Null }

  predicate Typed(ds: seq<Datum>, types: seq<TypeId>) {
    |ds| == |types| && forall i :: 0 <= i < |ds| ==> HasType(ds[i], types[i])
  }

  /** The join condition: no NULL on either side, and the same bytes. */
  predicate SameKey(a: seq<Datum>, b: seq<Datum>) { NoNulls(a) && NoNulls(b) && EncodeCells(a) == EncodeCells(b) }

  /** Two single cells that match as keys. */
  predicate KeyEqual(a: Datum, b: Datum) { a != Null && b != Null && EncodeCell(a) == EncodeCell(b) }

  predicate CellsMatch(a: seq<Datum>, b: seq<Datum>) {
    |a| == |b| && forall i :: 0 <= i < |a| ==> KeyEqual(a[i], b[i])
  }

  // ----- one cell -----

  /** The 32-bit pattern of a number. */
  function Bits(d: Datum): U32
    requires d.IntD? || d.FloatD?
  {
    if d.IntD? then ToU32(d.i) else d.f
  }

  /** When two stored cells match: numbers by their bits, whatever their types,
      strings by their bytes, and a number and a string only if both are all zero. */
  lemma KeyEqualMeans(a: Datum, b: Datum, s: TypeId, t: TypeId)
    requires HasType(a, s) && HasType(b, t)
    ensures s == t ==> (KeyEqual(a, b) <==> a != Null && a == b)
    ensures KeyEqual(a, b) <==>
      if a == Null || b == Null then false
      else if s == Varchar && t == Varchar then a.s == b.s
      else if s == Varchar then a.s == [] && Bits(b) == 0
      else if t == Varchar then Bits(a) == 0 && b.s == []
      else Bits(a) == Bits(b)
  {
    if a != Null && b != Null && EncodeCell(a) == EncodeCell(b) {
      if s == Varchar && t == Varchar {
        StringRoundTrip(a.s, []);
        StringRoundTrip(b.s, []);
        PlusEmpty(EncodeCell(a));
        PlusEmpty(EncodeCell(b));
      } else if s == Varchar {
        U32Digits(Bits(b));
        U32Digits(|a.s|);
      } else if t == Varchar {
        U32Digits(Bits(a));
        U32Digits(|b.s|);
      } else {
        U32Digits(Bits(a));
        U32Digits(Bits(b));
      }
    }
  }

  /** INTEGER 1065353216 has the bytes of FLOAT 1.0, and INTEGER 1 has not. */
  lemma NumbersMatchByBits()
    ensures KeyEqual(IntD(1065353216), FloatD(0x3F80_0000)) && !KeyEqual(IntD(1), FloatD(0x3F80_0000))
  {
    KeyEqualMeans(IntD(1), FloatD(0x3F80_0000), Integer, Float);
  }

  /** Cells of one width delimit themselves: numbers four bytes, strings by their length. */
  lemma CellDelimits(a: Datum, b: Datum, s: TypeId, t: TypeId, x: Bytes, y: Bytes)
    requires HasType(a, s) && HasType(b, t) && a != Null && b != Null && (s == Varchar <==> t == Varchar)
    requires EncodeCell(a) + x == EncodeCell(b) + y
    ensures EncodeCell(a) == EncodeCell(b) && x == y && (s == t ==> a == b)
  {
    if s == Varchar {
      StringRoundTrip(a.s, x);
      StringRoundTrip(b.s, y);
    } else {
      U32RoundTrip(Bits(a), x);
      U32RoundTrip(Bits(b), y);
    }
  }

  // ----- whole keys -----

  lemma EncodeHead(ds: seq<Datum>)
    requires ds != []
    ensures EncodeCells(ds) == EncodeCell(ds[0]) + EncodeCells(ds[1..])
    ensures NoNulls(ds) <==> ds[0] != Null && NoNulls(ds[1..])
  {
    ConcatMapHead(ds, CellCode());
    assert ds[0] in ds && forall d :: d in ds[1..] ==> d in ds;
    forall d | d in ds && d != ds[0] ensures d in ds[1..] { assert ds == [ds[0]] + ds[1..]; }
  }

  lemma TypedTail(ds: seq<Datum>, types: seq<TypeId>)
    requires Typed(ds, types) && ds != []
    ensures Typed(ds[1..], types[1..]) && HasType(ds[0], types[0])
  {
  }

  lemma CellsMatchTail(a: seq<Datum>, b: seq<Datum>)
    requires a != [] && b != []
    ensures CellsMatch(a, b) <==> KeyEqual(a[0], b[0]) && CellsMatch(a[1..], b[1..])
  {
    assert a == [a[0]] + a[1..] && b == [b[0]] + b[1..];
    if KeyEqual(a[0], b[0]) && CellsMatch(a[1..], b[1..]) {
      forall i | 0 <= i < |a| ensures KeyEqual(a[i], b[i]) {
        if i > 0 { assert KeyEqual(a[1..][i - 1], b[1..][i - 1]); }
      }
    }
  }

  /** Keys whose cells match have the same bytes, whatever the types. */
  lemma {:induction false} MatchingCellsSameKey(a: seq<Datum>, b: seq<Datum>)
    requires CellsMatch(a, b)
    ensures SameKey(a, b)
  {
    if a != [] {
      EncodeHead(a);
      EncodeHead(b);
      CellsMatchTail(a, b);
      MatchingCellsSameKey(a[1..], b[1..]);
    }
  }

  predicate AllNumbers(types: seq<TypeId>) { Varchar !in types }

  /** Where the two sides first differ in width, one of them has numbers only from there on. */
  predicate ReadAlike(ss: seq<TypeId>, ts: seq<TypeId>)
    requires |ss| == |ts|
  {
    if ss == [] then true
    else if (ss[0] == Varchar) == (ts[0] == Varchar) then ReadAlike(ss[1..], ts[1..])
    else AllNumbers(ss) || AllNumbers(ts)
  }

  lemma {:induction false} NumbersWidth(a: seq<Datum>, types: seq<TypeId>)
    requires Typed(a, types) && NoNulls(a)
    ensures |EncodeCells(a)| >= 4 * |a|
    ensures AllNumbers(types) ==> |EncodeCells(a)| == 4 * |a|
  {
    if a != [] {
      EncodeHead(a);
      TypedTail(a, types);
      NumbersWidth(a[1..], types[1..]);
      assert types[0] in types && types == [types[0]] + types[1..];
    }
  }

  lemma SplitAt(x: Bytes, y: Bytes, u: Bytes, v: Bytes)
    requires x + y == u + v && |x| == |u|
    ensures x == u && y == v
  {
    assert x == (x + y)[..|x|] && u == (u + v)[..|u|] && y == (x + y)[|x|..] && v == (u + v)[|u|..];
  }

  /** Against numbers only, no string is left but the empty one. */
  lemma {:induction false} NumbersMatch(a: seq<Datum>, b: seq<Datum>, ss: seq<TypeId>, ts: seq<TypeId>)
    requires Typed(a, ss) && Typed(b, ts) && |ss| == |ts| && AllNumbers(ss) && SameKey(a, b)
    ensures CellsMatch(a, b)
  {
    if a != [] {
      EncodeHead(a);
      EncodeHead(b);
      TypedTail(a, ss);
      TypedTail(b, ts);
      NumbersWidth(a[1..], ss[1..]);
      NumbersWidth(b[1..], ts[1..]);
      assert ss[0] in ss && forall t :: t in ss[1..] ==> t in ss;
      SplitAt(EncodeCell(a[0]), EncodeCells(a[1..]), EncodeCell(b[0]), EncodeCells(b[1..]));
      NumbersMatch(a[1..], b[1..], ss[1..], ts[1..]);
      CellsMatchTail(a, b);
    }
  }

  lemma CellsMatchSymmetric(a: seq<Datum>, b: seq<Datum>)
    ensures CellsMatch(a, b) == CellsMatch(b, a)
  {
  }

  lemma {:induction false} SameKeyMatches(a: seq<Datum>, b: seq<Datum>, ss: seq<TypeId>, ts: seq<TypeId>)
    requires Typed(a, ss) && Typed(b, ts) && |ss| == |ts| && ReadAlike(ss, ts) && SameKey(a, b)
    ensures CellsMatch(a, b)
  {
    if a != [] {
      if (ss[0] == Varchar) == (ts[0] == Varchar) {
        EncodeHead(a);
        EncodeHead(b);
        TypedTail(a, ss);
        TypedTail(b, ts);
        CellDelimits(a[0], b[0], ss[0], ts[0], EncodeCells(a[1..]), EncodeCells(b[1..]));
        SameKeyMatches(a[1..], b[1..], ss[1..], ts[1..]);
        CellsMatchTail(a, b);
      } else if AllNumbers(ss) {
        NumbersMatch(a, b, ss, ts);
      } else {
        NumbersMatch(b, a, ts, ss);
        CellsMatchSymmetric(a, b);
      }
    }
  }

  // ----- keys that match across their cells -----

  function ZeroText(n: nat): Bytes { seq(n, i => 0) }

  function ZeroCell(ty: TypeId): Datum {
    match ty case Integer => IntD(0) case Float => FloatD(0) case Varchar => StrD([])
  }

  function ZeroCells(types: seq<TypeId>): seq<Datum> {
    if types == [] then [] else [ZeroCell(types[0])] + ZeroCells(types[1..])
  }

  lemma ZeroCellBytes(ty: TypeId)
    ensures HasType(ZeroCell(ty), ty) && ZeroCell(ty) != Null && EncodeCell(ZeroCell(ty)) == ZeroText(4)
  {
  }

  lemma ZeroTextGrows(n: nat)
    ensures ZeroText(4) + ZeroText(n) == ZeroText(n + 4)
  {
  }

  lemma {:induction false} ZeroKey(types: seq<TypeId>)
    ensures Typed(ZeroCells(types), types) && NoNulls(ZeroCells(types))
    ensures EncodeCells(ZeroCells(types)) == ZeroText(4 * |types|)
  {
    if types != [] {
      var n := |types| - 1;
      ZeroKey(types[1..]);
      EncodeHead(ZeroCells(types));
      ZeroCellBytes(types[0]);
      ZeroTextGrows(4 * n);
    }
  }

  /** Zeros, but the first string has `m` zero bytes. */
  function Stretched(types: seq<TypeId>, m: nat): seq<Datum>
    requires m < TWO31
  {
    if types == [] then []
    else if types[0] == Varchar then [StrD(ZeroText(m))] + ZeroCells(types[1..])
    else [ZeroCell(types[0])] + Stretched(types[1..], m)
  }

  lemma {:induction false} StretchedKey(types: seq<TypeId>, m: nat)
    requires m < TWO31 && !AllNumbers(types)
    ensures Typed(Stretched(types, m), types) && NoNulls(Stretched(types, m))
    ensures var bytes := EncodeCells(Stretched(types, m));
      |bytes| == 4 * |types| + m && forall i :: 4 * |types| <= i < |bytes| ==> bytes[i] == 0
  {
    EncodeHead(Stretched(types, m));
    if types[0] == Varchar {
      ZeroKey(types[1..]);
    } else {
      assert types == [types[0]] + types[1..];
      StretchedKey(types[1..], m);
      ZeroCellBytes(types[0]);
    }
  }

  function NumberOf(ty: TypeId, m: nat): Datum
    requires m < TWO31
  {
    if ty == Integer then IntD(m) else FloatD(m)
  }

  /** A number that is read as the length of a string swallows what follows. */
  lemma NumberSwallows(ss: seq<TypeId>, ts: seq<TypeId>) returns (a: seq<Datum>, b: seq<Datum>)
    requires |ss| == |ts| > 0 && 4 * |ss| < TWO31 && ss[0] != Varchar && ts[0] == Varchar && !AllNumbers(ss)
    ensures Typed(a, ss) && Typed(b, ts) && SameKey(a, b) && !CellsMatch(a, b)
  {
    var n := |ss| - 1;
    var rest := Stretched(ss[1..], 4 * n);
    assert ss == [ss[0]] + ss[1..];
    StretchedKey(ss[1..], 4 * n);
    ZeroKey(ts[1..]);
    a, b := SwallowedTail(ss[0], 4 * n, rest, ZeroCells(ts[1..]));
  }

  /** The number is the length of the string, and the string the bytes after the number. */
  lemma SwallowedTail(ty: TypeId, m: nat, rest: seq<Datum>, zeros: seq<Datum>) returns (a: seq<Datum>, b: seq<Datum>)
    requires 0 < m < TWO31 && ty != Varchar && NoNulls(rest) && NoNulls(zeros)
    requires |EncodeCells(rest)| == 2 * m && EncodeCells(zeros) == ZeroText(m)
    requires forall i :: m <= i < 2 * m ==> EncodeCells(rest)[i] == 0
    ensures a != [] && b != [] && a[1..] == rest && b[1..] == zeros && HasType(a[0], ty) && HasType(b[0], Varchar)
    ensures SameKey(a, b) && !KeyEqual(a[0], b[0])
  {
    var bytes := EncodeCells(rest);
    var x, y := NumberOf(ty, m), StrD(bytes[..m]);
    a, b := [x] + rest, [y] + zeros;
    EncodeHead(a);
    EncodeHead(b);
    assert bytes == bytes[..m] + ZeroText(m);
    Assoc(EncodeU32(m), bytes[..m], ZeroText(m));
    KeyEqualMeans(x, y, ty, Varchar);
    assert a[1..] == rest && b[1..] == zeros && !KeyEqual(x, y);
  }

  lemma {:induction false} CrossedKeys(ss: seq<TypeId>, ts: seq<TypeId>) returns (a: seq<Datum>, b: seq<Datum>)
    requires |ss| == |ts| && 4 * |ss| < TWO31 && !ReadAlike(ss, ts)
    ensures Typed(a, ss) && Typed(b, ts) && SameKey(a, b) && !CellsMatch(a, b)
  {
    if (ss[0] == Varchar) == (ts[0] == Varchar) {
      a, b := CrossedKeys(ss[1..], ts[1..]);
      a, b := [ZeroCell(ss[0])] + a, [ZeroCell(ts[0])] + b;
      EncodeHead(a);
      EncodeHead(b);
      CellsMatchTail(a, b);
    } else if ts[0] == Varchar {
      a, b := NumberSwallows(ss, ts);
    } else {
      b, a := NumberSwallows(ts, ss);
      CellsMatchSymmetric(a, b);
    }
  }

  /** The bytes of two keys are equal exactly when the keys match cell by cell,
      on all cells of these types, if and only if the types read alike. */
  lemma SameKeyIsCellsMatchIff(ss: seq<TypeId>, ts: seq<TypeId>)
    requires |ss| == |ts| && 4 * |ss| < TWO31
    ensures (forall a, b :: Typed(a, ss) && Typed(b, ts) ==> (SameKey(a, b) <==> CellsMatch(a, b))) <==>
      ReadAlike(ss, ts)
  {
    if ReadAlike(ss, ts) {
      forall a, b | Typed(a, ss) && Typed(b, ts) ensures SameKey(a, b) <==> CellsMatch(a, b) {
        if SameKey(a, b) { SameKeyMatches(a, b, ss, ts); }
        if CellsMatch(a, b) { MatchingCellsSameKey(a, b); }
      }
    } else {
      var a, b := CrossedKeys(ss, ts);
    }
  }

  /** On equal types a join key matches exactly when no cell is NULL and all are equal. */
  lemma {:induction false} SameTypesSameKey(a: seq<Datum>, b: seq<Datum>, types: seq<TypeId>)
    requires Typed(a, types) && Typed(b, types)
    ensures SameKey(a, b) <==> NoNulls(a) && a == b
  {
    if SameKey(a, b) {
      ReadAlikeItself(types);
      SameKeyMatches(a, b, types, types);
      forall i | 0 <= i < |a| ensures a[i] == b[i] {
        assert KeyEqual(a[i], b[i]);
        KeyEqualMeans(a[i], b[i], types[i], types[i]);
      }
    }
  }

  lemma {:induction false} ReadAlikeItself(types: seq<TypeId>)
    ensures ReadAlike(types, types)
  {
    if types != [] { ReadAlikeItself(types[1..]); }
  }

  /** Two conditions `i = s AND t = j` over INTEGER i, j and VARCHAR s, t:
      (4, four zero bytes) joins ("\4\0\0\0", 0), and neither condition holds. */
  lemma CrossedExample()
    ensures var a, b := [IntD(4), StrD([0, 0, 0, 0])], [StrD([4, 0, 0, 0]), IntD(0)];
      SameKey(a, b) && !KeyEqual(a[0], b[0]) && !KeyEqual(a[1], b[1])
  {
    var a, b := [IntD(4), StrD([0, 0, 0, 0])], [StrD([4, 0, 0, 0]), IntD(0)];
    EncodeHead(a);
    EncodeHead(a[1..]);
    EncodeHead(b);
    EncodeHead(b[1..]);
  }
}
