/** Bit-packed validity: eight rows to a byte, least significant bit first.
    Or-ing a one-bit mask into a byte adds the mask when the bit is clear;
    and-ing with its complement subtracts it when the bit is set. */
module Bitmap {
  import opened Seqs
  import opened Types
  import opened ByteIO

  const BITS_PER_BYTE: nat := 8

  type BitIndex = k: nat | k < 8

  /** 1 << k. */
  function Mask(k: BitIndex): nat {
    if k == 0 then 1 else if k == 1 then 2 else if k == 2 then 4 else if k == 3 then 8
    else if k == 4 then 16 else if k == 5 then 32 else if k == 6 then 64 else 128
  }

  /** (b >> k) & 1. */
  predicate Bit(b: Byte, k: BitIndex) { b / Mask(k) % 2 == 1 }

  function SetBit(b: Byte, k: BitIndex): Byte {
    if Bit(b, k) then b else b + Mask(k)
  }

  function ClearBit(b: Byte, k: BitIndex): Byte {
    if Bit(b, k) then b - Mask(k) else b
  }

  /** Adding an even multiple of `n` does not change the parity of the quotient. */
  lemma ParityKept(b: nat, n: nat, t: nat)
    requires n > 0
    ensures (b + 2 * t * n) / n % 2 == b / n % 2
  {
    var q, r := b / n, b % n;
    assert b + 2 * t * n == (q + 2 * t) * n + r;
    QuotientIs(b + 2 * t * n, n, q + 2 * t, r);
  }

  lemma QuotientIs(x: nat, n: nat, q: nat, r: nat)
    requires n > 0 && x == q * n + r && r < n
    ensures x / n == q
  {
    var d := x / n;
    if d < q {
      MulMono(d + 1, q, n);
      assert false;
    } else if d > q {
      MulMono(q + 1, d, n);
      assert false;
    }
  }

  lemma MulMono(a: nat, b: nat, m: nat)
    requires a <= b
    ensures a * m <= b * m
  {
  }

  /** Adding a clear bit does not carry into the quotient by a higher one. */
  lemma NoCarry(b: nat, m: nat, n: nat, t: nat)
    requires m > 0 && t > 0 && n == (2 * t) * m && b / m % 2 == 0
    ensures (b + m) / n == b / n
  {
    var s := b / m;
    var h, v := s / 2 / t, s / 2 % t;
    assert s == h * (2 * t) + 2 * v by { assert s == 2 * (h * t + v); }
    NoCarryAt(b, m, n, t, h, v);
  }

  lemma NoCarryAt(b: nat, m: nat, n: nat, t: nat, h: nat, v: nat)
    requires m > 0 && n == (2 * t) * m && v < t && b / m == h * (2 * t) + 2 * v
    ensures (b + m) / n == b / n
  {
    var u := b % m;
    Distribute(h, 2 * t, 2 * v, m);
    assert b == h * n + (2 * v * m + u);
    MulMono(2 * v + 2, 2 * t, m);
    Distribute(1, 2 * v, 2, m);
    QuotientIs(b, n, h, 2 * v * m + u);
    QuotientIs(b + m, n, h, 2 * v * m + u + m);
  }

  lemma Distribute(h: nat, a: nat, c: nat, m: nat)
    ensures (h * a + c) * m == h * (a * m) + c * m
  {
  }

  function Half(k: BitIndex, j: BitIndex): nat
    requires j < k
  {
    Mask(k) / (2 * Mask(j))
  }

  lemma MaskRatio(k: BitIndex, j: BitIndex)
    requires j < k
    ensures Half(k, j) > 0 && Mask(k) == (2 * Half(k, j)) * Mask(j)
  {
    if j == 0 {
    } else if j == 1 {
    } else if j == 2 {
    } else if j == 3 {
    } else if j == 4 {
    } else if j == 5 {
    }
  }

  lemma AddMaskSame(b: nat, m: nat)
    requires m > 0
    ensures (b + m) / m == b / m + 1
  {
    QuotientIs(b + m, m, b / m + 1, b % m);
  }

  lemma ParityFlips(b: nat, m: nat)
    requires m > 0
    ensures (b + m) / m % 2 == 1 - b / m % 2
  {
    AddMaskSame(b, m);
  }

  lemma AddMaskHere(b: Byte, c: Byte, k: BitIndex, m: nat)
    requires m == Mask(k) && c == b + m
    ensures Bit(c, k) == !Bit(b, k)
  {
    ParityFlips(b, m);
  }

  lemma AddMaskBelow(b: Byte, c: Byte, k: BitIndex, j: BitIndex)
    requires j < k && c == b + Mask(k)
    ensures Bit(c, j) == Bit(b, j)
  {
    MaskRatio(k, j);
    ParityKept(b, Mask(j), Half(k, j));
  }

  lemma AddMaskAbove(b: Byte, c: Byte, k: BitIndex, j: BitIndex)
    requires k < j && !Bit(b, k) && c == b + Mask(k)
    ensures Bit(c, j) == Bit(b, j)
  {
    MaskRatio(j, k);
    NoCarry(b, Mask(k), Mask(j), Half(j, k));
  }

  /** Adding the mask of a clear bit sets that bit and no other. */
  lemma AddMask(b: Byte, c: Byte, k: BitIndex, j: BitIndex)
    requires !Bit(b, k) && c == b + Mask(k)
    ensures Bit(c, j) <==> j == k || Bit(b, j)
  {
    if j == k {
      AddMaskHere(b, c, k, Mask(k));
    } else if j < k {
      AddMaskBelow(b, c, k, j);
    } else {
      AddMaskAbove(b, c, k, j);
    }
  }

  lemma SetBitBits(b: Byte, k: BitIndex, j: BitIndex)
    ensures Bit(SetBit(b, k), j) <==> j == k || Bit(b, j)
  {
    if !Bit(b, k) { AddMask(b, SetBit(b, k), k, j); }
  }

  lemma ClearBitBits(b: Byte, k: BitIndex, j: BitIndex)
    ensures Bit(ClearBit(b, k), j) <==> j != k && Bit(b, j)
  {
    if Bit(b, k) {
      var c := ClearBit(b, k);
      AddMaskHere(c, b, k, Mask(k));
      AddMask(c, b, k, j);
    }
  }

  // ----- the bitmap -----

  predicate BitAt(bytes: Bytes, i: nat)
    requires i / BITS_PER_BYTE < |bytes|
  {
    Bit(bytes[i / BITS_PER_BYTE], i % BITS_PER_BYTE)
  }

  function ByteCount(rows: nat): nat { (rows + BITS_PER_BYTE - 1) / BITS_PER_BYTE }

  function BitsOf(bytes: Bytes, rows: nat): seq<bool>
    requires |bytes| >= ByteCount(rows)
  {
    seq(rows, i requires 0 <= i < rows => BitAt(bytes, i))
  }

  function WithBit(bytes: Bytes, i: nat, value: bool): Bytes
    requires i / BITS_PER_BYTE < |bytes|
  {
    var b := bytes[i / BITS_PER_BYTE];
    bytes[i / BITS_PER_BYTE := if value then SetBit(b, i % BITS_PER_BYTE) else ClearBit(b, i % BITS_PER_BYTE)]
  }

  /** Writing one bit changes that bit only. */
  lemma WithBitBits(bytes: Bytes, i: nat, value: bool, j: nat)
    requires i / BITS_PER_BYTE < |bytes| && j / BITS_PER_BYTE < |bytes|
    ensures BitAt(WithBit(bytes, i, value), j) == if j == i then value else BitAt(bytes, j)
  {
    var b := bytes[i / BITS_PER_BYTE];
    SetBitBits(b, i % BITS_PER_BYTE, j % BITS_PER_BYTE);
    ClearBitBits(b, i % BITS_PER_BYTE, j % BITS_PER_BYTE);
  }

  function IsFalse(): bool -> bool { (b: bool) => !b }

  class ValidityBitmap {
    var numRows: nat
    var bytes: Bytes

    ghost predicate Valid()
      reads this
    {
      |bytes| == ByteCount(numRows)
    }

    ghost function Bits(): seq<bool>
      requires Valid()
      reads this
    {
      BitsOf(bytes, numRows)
    }

    constructor (rows: nat, defaultValid: bool)
      ensures Valid() && Bits() == seq(rows, _ => defaultValid)
    {
      numRows := rows;
      bytes := seq(ByteCount(rows), _ => if defaultValid then 255 else 0);
      new;
      forall i | 0 <= i < rows ensures BitAt(bytes, i) == defaultValid { AllOnes(i % BITS_PER_BYTE); }
    }

    method SetValid(index: nat, value: bool)
      requires Valid() && index < numRows
      modifies this
      ensures Valid() && Bits() == old(Bits())[index := value]
    {
      ghost var before := bytes;
      var b := bytes[index / BITS_PER_BYTE];
      bytes := bytes[index / BITS_PER_BYTE :=
        if value then SetBit(b, index % BITS_PER_BYTE) else ClearBit(b, index % BITS_PER_BYTE)];
      forall j | 0 <= j < numRows ensures BitAt(bytes, j) == if j == index then value else BitAt(before, j) {
        WithBitBits(before, index, value, j);
      }
    }

    method IsValid(index: nat) returns (r: bool)
      requires Valid() && index < numRows
      ensures r == Bits()[index]
    {
      r := bytes[index / BITS_PER_BYTE] / Mask(index % BITS_PER_BYTE) % 2 == 1;
    }

    /** Grows by one row; the spare bits of the last byte may hold anything before. */
    method PushBack(value: bool)
      requires Valid()
      modifies this
      ensures Valid() && Bits() == old(Bits()) + [value]
    {
      ghost var before := Bits();
      numRows := numRows + 1;
      var needed := (numRows + BITS_PER_BYTE - 1) / BITS_PER_BYTE;
      if |bytes| < needed {
        bytes := bytes + seq(needed - |bytes|, _ => 0);
      }
      assert forall i :: 0 <= i < |before| ==> Bits()[i] == before[i];
      SetValid(numRows - 1, value);
    }

    method CountNulls() returns (count: nat)
      requires Valid()
      ensures count == |Filter(Bits(), IsFalse())|
    {
      count := 0;
      for i := 0 to numRows
        invariant count == |Filter(Bits()[..i], IsFalse())|
      {
        assert Bits()[..i + 1] == Bits()[..i] + [Bits()[i]];
        FilterSnoc(Bits()[..i], Bits()[i], IsFalse());
        var valid := IsValid(i);
        if !valid {
          count := count + 1;
        }
      }
      assert Bits()[..numRows] == Bits();
    }
  }

  lemma AllOnes(k: BitIndex)
    ensures Bit(255, k) && !Bit(0, k)
  {
    if k == 0 { } else if k == 1 { } else if k == 2 { } else if k == 3 { } else if k == 4 { } else { }
  }
}
