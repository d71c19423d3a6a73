/** Little-endian encoding and the reader that undoes it. Decoders work on the
    unread bytes and hand back what they leave; None is a read past the end. */
module ByteIO {
  import opened Seqs
  import opened Types

  type Bytes = seq<Byte>

  function EncodeU32(u: U32): (b: Bytes)
    ensures |b| == 4
  {
    [u % 256, u / 0x100 % 256, u / 0x1_0000 % 256, u / 0x100_0000 % 256]
  }

  function EncodeU64(u: U64): (b: Bytes)
    ensures |b| == 8
  {
    EncodeU32(u % TWO32) + EncodeU32(u / TWO32)
  }

  /** The two's complement pattern of an int32. */
  function ToU32(i: Int32): U32 { if i < 0 then i + TWO32 else i }
  function OfU32(u: U32): Int32 { if u < TWO31 then u else u - TWO32 }

  function EncodeString(s: Str): Bytes { EncodeU32(|s|) + s }

  function DecodeU8(s: Bytes): Option<(Byte, Bytes)> {
    if s == [] then None else Some((s[0], s[1..]))
  }

  function U32At(s: Bytes): U32
    requires |s| >= 4
  {
    s[0] as int + 0x100 * (s[1] as int) + 0x1_0000 * (s[2] as int) + 0x100_0000 * (s[3] as int)
  }

  function DecodeU32(s: Bytes): Option<(U32, Bytes)> {
    if |s| < 4 then None else Some((U32At(s), s[4..]))
  }

  function DecodeU64(s: Bytes): Option<(U64, Bytes)> {
    if |s| < 8 then None else Some((U32At(s) + TWO32 * U32At(s[4..]), s[8..]))
  }

  function DecodeBytes(s: Bytes, n: nat): Option<(Bytes, Bytes)> {
    if |s| < n then None else Some((s[..n], s[n..]))
  }

  function DecodeString(s: Bytes): Option<(Bytes, Bytes)> {
    var length :- DecodeU32(s);
    DecodeBytes(length.1, length.0)
  }

  lemma U32Digits(u: U32)
    ensures U32At(EncodeU32(u)) == u
  {
    var q1 := u / 0x100;
    var q2 := q1 / 0x100;
    var q3 := q2 / 0x100;
    assert u == q1 * 0x100 + u % 256 && q1 == q2 * 0x100 + q1 % 256 && q2 == q3 * 0x100 + q2 % 256;
    assert q2 == u / 0x1_0000 && q3 == u / 0x100_0000 && q3 < 256;
  }

  lemma U32RoundTrip(u: U32, rest: Bytes)
    ensures DecodeU32(EncodeU32(u) + rest) == Some((u, rest))
  {
    U32Digits(u);
    assert (EncodeU32(u) + rest)[4..] == rest;
  }

  lemma U64RoundTrip(u: U64, rest: Bytes)
    ensures DecodeU64(EncodeU64(u) + rest) == Some((u, rest))
  {
    U32Digits(u % TWO32);
    U32Digits(u / TWO32);
    var s := EncodeU64(u) + rest;
    assert s[8..] == rest;
    assert U32At(s) == U32At(EncodeU32(u % TWO32));
    assert U32At(s[4..]) == U32At(EncodeU32(u / TWO32));
  }

  lemma StringRoundTrip(str: Str, rest: Bytes)
    ensures DecodeString(EncodeString(str) + rest) == Some((str, rest))
  {
    U32RoundTrip(|str|, str + rest);
    assert EncodeString(str) + rest == EncodeU32(|str|) + (str + rest);
    assert (str + rest)[..|str|] == str && (str + rest)[|str|..] == rest;
  }

  lemma Nest3(a: Bytes, b: Bytes, c: Bytes, rest: Bytes)
    ensures a + b + c + rest == a + (b + (c + rest))
  {
  }

  lemma U8RoundTrip(b: Byte, rest: Bytes)
    ensures DecodeU8([b] + rest) == Some((b, rest))
  {
  }

  // ----- lists -----

  /** `n` values one after the other, as the reading loops take them. */
  function DecodeAll<T>(n: nat, s: Bytes, dec: Bytes -> Option<(T, Bytes)>): Option<(seq<T>, Bytes)> {
    if n == 0 then Some(([], s))
    else
      var before :- DecodeAll(n - 1, s, dec);
      var one :- dec(before.1);
      Some((before.0 + [one.0], one.1))
  }

  /** Reading what was written for one of `xs` yields `image` of it and leaves the rest. */
  ghost predicate ReadsBack<T(!new)>(xs: seq<T>, enc: T -> Bytes, dec: Bytes -> Option<(T, Bytes)>, image: T -> T) {
    forall x: T, rest: Bytes :: x in xs ==> dec(enc(x) + rest) == Some((image(x), rest))
  }

  lemma {:induction false} AllReadBack<T(!new)>(xs: seq<T>, rest: Bytes, enc: T -> Bytes,
                                                dec: Bytes -> Option<(T, Bytes)>, image: T -> T)
    requires ReadsBack(xs, enc, dec, image)
    ensures DecodeAll(|xs|, ConcatMap(xs, enc) + rest, dec) == Some((Map(xs, image), rest))
  {
    if xs == [] {
      assert ConcatMap(xs, enc) + rest == rest;
    } else {
      var init, last := xs[..|xs| - 1], xs[|xs| - 1];
      assert forall x :: x in init ==> x in xs;
      AllReadBack(init, enc(last) + rest, enc, dec, image);
      Assoc(ConcatMap(init, enc), enc(last), rest);
      assert dec(enc(last) + rest) == Some((image(last), rest));
      SplitLast(xs);
      MapSnoc(init, last, image);
    }
  }

  /** A 32-bit count, then the elements. Counts are narrowed when stored. */
  function EncodeList<T>(xs: seq<T>, enc: T -> Bytes): Bytes { EncodeU32(|xs| % TWO32) + ConcatMap(xs, enc) }

  function DecodeList<T>(s: Bytes, dec: Bytes -> Option<(T, Bytes)>): Option<(seq<T>, Bytes)> {
    var n :- DecodeU32(s);
    DecodeAll(n.0, n.1, dec)
  }

  lemma ListReadsBack<T(!new)>(xs: seq<T>, rest: Bytes, enc: T -> Bytes, dec: Bytes -> Option<(T, Bytes)>,
                               image: T -> T)
    requires |xs| < TWO32 && ReadsBack(xs, enc, dec, image)
    ensures DecodeList(EncodeList(xs, enc) + rest, dec) == Some((Map(xs, image), rest))
  {
    var body := ConcatMap(xs, enc);
    CountReadsBack(|xs|, body, rest);
    AllReadBack(xs, rest, enc, dec, image);
  }

  lemma CountReadsBack(n: nat, body: Bytes, rest: Bytes)
    requires n < TWO32
    ensures DecodeU32((EncodeU32(n % TWO32) + body) + rest) == Some((n, body + rest))
  {
    Assoc(EncodeU32(n % TWO32), body, rest);
    U32RoundTrip(n % TWO32, body + rest);
  }

  /** The first failure is final. */
  lemma {:induction false} DecodeAllFails<T>(k: nat, n: nat, s: Bytes, dec: Bytes -> Option<(T, Bytes)>)
    requires k <= n && DecodeAll(k, s, dec).None?
    ensures DecodeAll(n, s, dec).None?
  {
    if k < n { DecodeAllFails(k, n - 1, s, dec); }
  }

  /** Shift-and-mask writers: the digits come out least significant first. */
  method WriteU32(buf: Bytes, value: U32) returns (out: Bytes)
    ensures out == buf + EncodeU32(value)
  {
    out := buf;
    var rest := value;
    for i := 0 to 4
      invariant out == buf + EncodeU32(value)[..i]
      invariant rest == if i == 0 then value else if i == 1 then value / 0x100
                        else if i == 2 then value / 0x1_0000 else if i == 3 then value / 0x100_0000 else 0
    {
      out := out + [rest % 256];
      rest := rest / 256;
    }
  }

  /** The cursor over a byte buffer. */
  class ByteReader {
    const bytes: Bytes
    var pos: nat

    ghost predicate Valid() reads this { pos <= |bytes| }

    /** What is still to be read. */
    function Rest(): Bytes
      requires Valid()
      reads this
    {
      bytes[pos..]
    }

    constructor (b: Bytes)
      ensures Valid() && Rest() == b && bytes == b
    {
      bytes, pos := b, 0;
    }

    method ReadU8() returns (r: Option<Byte>)
      requires Valid()
      modifies this
      ensures Valid()
      ensures match DecodeU8(old(Rest()))
              case None => r.None? && Rest() == old(Rest())
              case Some(p) => r == Some(p.0) && Rest() == p.1
    {
      if pos == |bytes| { return None; }
      r := Some(bytes[pos]);
      pos := pos + 1;
    }

    method ReadU32() returns (r: Option<U32>)
      requires Valid()
      modifies this
      ensures Valid()
      ensures match DecodeU32(old(Rest()))
              case None => r.None? && Rest() == old(Rest())
              case Some(p) => r == Some(p.0) && Rest() == p.1
    {
      if |bytes| - pos < 4 { return None; }
      var value: int := bytes[pos];
      value := value + 0x100 * (bytes[pos + 1] as int);
      value := value + 0x1_0000 * (bytes[pos + 2] as int);
      value := value + 0x100_0000 * (bytes[pos + 3] as int);
      r := Some(value);
      pos := pos + 4;
    }

    method ReadBytes(n: nat) returns (r: Option<Bytes>)
      requires Valid()
      modifies this
      ensures Valid()
      ensures match DecodeBytes(old(Rest()), n)
              case None => r.None? && Rest() == old(Rest())
              case Some(p) => r == Some(p.0) && Rest() == p.1
    {
      if |bytes| - pos < n { return None; }
      r := Some(bytes[pos..pos + n]);
      assert bytes[pos..][..n] == bytes[pos..pos + n];
      pos := pos + n;
    }
  }
}
