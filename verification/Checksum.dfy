/** The running checksum of the log: CRC-32 with the Castagnoli polynomial. It has the published
    check value, adds up over pieces of data, and tells any two data apart that differ in one
    byte. */
module Checksum {
  import opened RaftTypes

  type Step = (bv32, byte) -> bv32

  function CrcBit(c: bv32): bv32 {
    if c & 1 == 1 then (c >> 1) ^ 0x82F63B78 else c >> 1
  }

  function CrcBits(c: bv32, n: nat): bv32
    decreases n
  {
    if n == 0 then c else CrcBits(CrcBit(c), n - 1)
  }

  // The lowest n bits of x.
  function Bits(x: nat, n: nat): bv32
    decreases n
  {
    if n == 0 then 0 else (Bits(x / 2, n - 1) << 1) | (if x % 2 == 1 then 1 else 0)
  }

  // One byte of n bits.
  function CrcStep(n: nat): Step {
    (c: bv32, x: byte) => CrcBits(c ^ Bits(x as int, n), n)
  }

  function Fold(step: Step, c: bv32, data: Bytes): bv32
    decreases |data|
  {
    if data == [] then c else Fold(step, step(c, data[0]), data[1..])
  }

  function UpdateWith(step: Step, c: bv32, data: Bytes): bv32 { !Fold(step, !c, data) }

  function Update(c: bv32, data: Bytes): bv32 { UpdateWith(CrcStep(8), c, data) }

  lemma UpdateNothing(c: bv32)
    ensures Update(c, []) == c
  {
  }

  // ---- Taking in data piece by piece ----

  lemma {:induction false} FoldSplit(step: Step, c: bv32, a: Bytes, b: Bytes)
    ensures Fold(step, c, a + b) == Fold(step, Fold(step, c, a), b)
    decreases |a|
  {
    if a == [] {
      assert a + b == b;
    } else {
      assert (a + b)[0] == a[0] && (a + b)[1..] == a[1..] + b;
      FoldSplit(step, step(c, a[0]), a[1..], b);
    }
  }

  // The state before a byte can be told from the state after it, and so can the byte.
  ghost predicate Lossless(step: Step) {
    && (forall a, b, x :: step(a, x) == step(b, x) ==> a == b)
    && (forall a, x, y :: step(a, x) == step(a, y) ==> x == y)
  }

  lemma {:induction false} FoldInjective(step: Step, a: bv32, b: bv32, data: Bytes)
    requires Lossless(step) && Fold(step, a, data) == Fold(step, b, data)
    ensures a == b
    decreases |data|
  {
    if data != [] {
      FoldInjective(step, step(a, data[0]), step(b, data[0]), data[1..]);
    }
  }

  lemma FoldShows(step: Step, c: bv32, data: Bytes, k: nat, x: byte)
    requires Lossless(step) && k < |data| && Fold(step, c, data[k := x]) == Fold(step, c, data)
    ensures x == data[k]
  {
    var d := Fold(step, c, data[..k]);
    var y, rest := data[k], data[k + 1..];
    assert data == data[..k] + ([y] + rest) && data[k := x] == data[..k] + ([x] + rest);
    FoldSplit(step, c, data[..k], [y] + rest);
    FoldSplit(step, c, data[..k], [x] + rest);
    assert ([y] + rest)[1..] == rest && ([x] + rest)[1..] == rest;
    FoldInjective(step, step(d, x), step(d, y), rest);
  }

  // ---- No byte is lost ----

  lemma BitInjective(a: bv32, b: bv32)
    requires CrcBit(a) == CrcBit(b)
    ensures a == b
  {
  }

  lemma {:induction false} BitsInjective(a: bv32, b: bv32, n: nat)
    requires CrcBits(a, n) == CrcBits(b, n)
    ensures a == b
    decreases n
  {
    if n > 0 {
      BitsInjective(CrcBit(a), CrcBit(b), n - 1);
      BitInjective(a, b);
    }
  }

  // Below this lie the numbers of n bits.
  function Limit(n: nat): bv32
    decreases n
  {
    if n == 0 then 1 else Limit(n - 1) << 1
  }

  lemma {:induction false} LimitFits(n: nat, k: nat)
    requires n + k == 7
    ensures Limit(n) <= 0x80
  {
    assert Limit(7) == Limit(6) << 1 && Limit(6) == Limit(5) << 1 && Limit(5) == Limit(4) << 1;
    assert Limit(4) == Limit(3) << 1 && Limit(3) == Limit(2) << 1 && Limit(2) == Limit(1) << 1 && Limit(1) == 2;
  }

  lemma OneBitMore(a: bv32, p: bv32, l: bv32)
    requires a < l <= 0x80 && p <= 1
    ensures (a << 1) | p < l << 1
  {
  }

  lemma LastBit(a: bv32, p: bv32, b: bv32, q: bv32)
    requires a < 0x80 && b < 0x80 && p <= 1 && q <= 1 && (a << 1) | p == (b << 1) | q
    ensures a == b && p == q
  {
  }

  lemma {:induction false} BitsFit(x: nat, n: nat)
    requires n <= 8
    ensures Bits(x, n) < Limit(n)
    decreases n
  {
    if n > 0 {
      BitsFit(x / 2, n - 1);
      LimitFits(n - 1, 8 - n);
      OneBitMore(Bits(x / 2, n - 1), if x % 2 == 1 then 1 else 0, Limit(n - 1));
    }
  }

  function Power(n: nat): nat { if n == 0 then 1 else 2 * Power(n - 1) }

  // Numbers of n bits are told apart by them.
  lemma {:induction false} SameBits(x: nat, y: nat, n: nat)
    requires n <= 8 && x < Power(n) && y < Power(n) && Bits(x, n) == Bits(y, n)
    ensures x == y
    decreases n
  {
    if n > 0 {
      BitsFit(x / 2, n - 1);
      BitsFit(y / 2, n - 1);
      LimitFits(n - 1, 8 - n);
      var p, q: bv32 := if x % 2 == 1 then 1 else 0, if y % 2 == 1 then 1 else 0;
      LastBit(Bits(x / 2, n - 1), p, Bits(y / 2, n - 1), q);
      SameBits(x / 2, y / 2, n - 1);
    }
  }

  lemma XorBack(c: bv32, x: bv32, d: bv32, y: bv32)
    requires c ^ x == d ^ y
    ensures x == y ==> c == d
    ensures c == d ==> x == y
  {
  }

  lemma ByteLossless(a: bv32, x: byte, b: bv32, y: byte, n: nat)
    requires n <= 8 && Power(n) >= 0x100 && CrcStep(n)(a, x) == CrcStep(n)(b, y)
    ensures x == y ==> a == b
    ensures a == b ==> x == y
  {
    var u, v := Bits(x as int, n), Bits(y as int, n);
    BitsInjective(a ^ u, b ^ v, n);
    XorBack(a, u, b, v);
    if u == v {
      SameBits(x as int, y as int, n);
    }
  }

  lemma StepLossless(n: nat)
    requires n <= 8 && Power(n) >= 0x100
    ensures Lossless(CrcStep(n))
  {
    forall a, b, x | CrcStep(n)(a, x) == CrcStep(n)(b, x) ensures a == b {
      ByteLossless(a, x, b, x, n);
    }
    forall a, x, y | CrcStep(n)(a, x) == CrcStep(n)(a, y) ensures x == y {
      ByteLossless(a, x, a, y, n);
    }
    NothingLost(CrcStep(n));
  }

  lemma NothingLost(step: Step)
    requires forall a, b, x :: step(a, x) == step(b, x) ==> a == b
    requires forall a, x, y :: step(a, x) == step(a, y) ==> x == y
    ensures Lossless(step)
  {
  }

  lemma CrcLossless()
    ensures Lossless(CrcStep(8))
  {
    assert Power(8) == 0x100;
    StepLossless(8);
  }

  lemma NotBack(a: bv32, b: bv32)
    ensures !!a == a && (!a == !b ==> a == b)
  {
  }

  /** The checksum of data in two pieces is that of the whole. */
  lemma UpdateSplit(c: bv32, a: Bytes, b: Bytes)
    ensures Update(Update(c, a), b) == Update(c, a + b)
  {
    UpdateSplitWith(CrcStep(8), c, a, b);
  }

  lemma UpdateSplitWith(step: Step, c: bv32, a: Bytes, b: Bytes)
    ensures UpdateWith(step, UpdateWith(step, c, a), b) == UpdateWith(step, c, a + b)
  {
    var u, d := UpdateWith(step, c, a), Fold(step, !c, a);
    assert u == !d;
    NotBack(d, d);
    assert !u == d;
    UpdateFrom(step, u, d, b);
    FoldSplit(step, !c, a, b);
  }

  lemma UpdateFrom(step: Step, u: bv32, d: bv32, b: Bytes)
    requires !u == d
    ensures UpdateWith(step, u, b) == !Fold(step, d, b)
  {
  }

  /** Data that differ in one byte have different checksums. */
  lemma OneByteShows(c: bv32, data: Bytes, k: nat, x: byte)
    requires k < |data| && data[k] != x
    ensures Update(c, data[k := x]) != Update(c, data)
  {
    CrcLossless();
    UpdateShows(CrcStep(8), c, data, k, x);
  }

  lemma UpdateShows(step: Step, c: bv32, data: Bytes, k: nat, x: byte)
    requires Lossless(step) && k < |data| && data[k] != x
    ensures UpdateWith(step, c, data[k := x]) != UpdateWith(step, c, data)
  {
    NotBack(Fold(step, !c, data[k := x]), Fold(step, !c, data));
    if Fold(step, !c, data[k := x]) == Fold(step, !c, data) {
      FoldShows(step, !c, data, k, x);
    }
  }

  // ---- The check value of the polynomial ----

  lemma NextByte(c: bv32, data: Bytes, k: nat, n: nat, v: bv32, d: bv32)
    requires k < |data| && Bits(data[k] as int, n) == v && CrcBits(c ^ v, n) == d
    ensures Fold(CrcStep(n), c, data[k..]) == Fold(CrcStep(n), d, data[k + 1..])
  {
    assert data[k..][1..] == data[k + 1..];
  }

  predicate Digits(data: Bytes) { data == [0x31, 0x32, 0x33, 0x34, 0x35, 0x36, 0x37, 0x38, 0x39] }

  lemma Digits1To3(data: Bytes)
    requires Digits(data)
    ensures Fold(CrcStep(8), 0xFFFFFFFF, data[0..]) == Fold(CrcStep(8), 0xEF84D04D, data[3..])
  {
    NextByte(0xFFFFFFFF, data, 0, 8, 0x31, 0x6F0A661C);
    NextByte(0x6F0A661C, data, 1, 8, 0x32, 0x8CAA3B9F);
    NextByte(0x8CAA3B9F, data, 2, 8, 0x33, 0xEF84D04D);
  }

  lemma Digits4To6(data: Bytes)
    requires Digits(data)
    ensures Fold(CrcStep(8), 0xEF84D04D, data[3..]) == Fold(CrcStep(8), 0xBECA8E79, data[6..])
  {
    NextByte(0xEF84D04D, data, 3, 8, 0x34, 0x9C50B11);
    NextByte(0x9C50B11, data, 4, 8, 0x35, 0xE72EDCCA);
    NextByte(0xE72EDCCA, data, 5, 8, 0x36, 0xBECA8E79);
  }

  lemma Digits7To9(data: Bytes)
    requires Digits(data)
    ensures Fold(CrcStep(8), 0xBECA8E79, data[6..]) == Fold(CrcStep(8), 0x1CF96D7C, data[9..])
  {
    NextByte(0xBECA8E79, data, 6, 8, 0x37, 0xEDBD6815);
    NextByte(0xEDBD6815, data, 7, 8, 0x38, 0x9F787F65);
    NextByte(0x9F787F65, data, 8, 8, 0x39, 0x1CF96D7C);
  }

  /** The checksum of the digits 1 to 9 in ASCII is the check value published for CRC-32C. */
  lemma CheckValue(data: Bytes)
    requires Digits(data)
    ensures Update(0, data) == 0xE3069283
  {
    assert data[0..] == data && data[9..] == [];
    Digits1To3(data);
    Digits4To6(data);
    Digits7To9(data);
  }
}
