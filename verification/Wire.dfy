/** The protocol buffer wire format: base-128 varints and length-delimited fields
    (Protocol Buffers Encoding, sections "Base 128 Varints" and "Length-Delimited
    Records"). 64-bit words are naturals below 2^64; shifts and masks are written as
    multiplications, divisions and remainders, with truncation made explicit. */
module Wire {
  import opened Collections
  import opened RaftTypes

  const TWO63: int := 0x8000_0000_0000_0000
  const TWO64: int := 0x1_0000_0000_0000_0000

  predicate Int64(x: int) { -TWO63 <= x < TWO63 }

  // The 64-bit word of a signed integer, and back.
  function ToWord(x: int): (w: nat)
    requires Int64(x)
    ensures w < TWO64
  {
    if x < 0 then x + TWO64 else x
  }

  function FromWord(w: nat): int
    requires w < TWO64
  {
    if w >= TWO63 then w - TWO64 else w
  }

  function Pow2(n: nat): (p: nat)
    ensures p >= 1
  {
    if n == 0 then 1 else 2 * Pow2(n - 1)
  }

  // Bitwise or.
  function Or(a: nat, b: nat): nat {
    if a == 0 then b
    else if b == 0 then a
    else (if a % 2 == 1 || b % 2 == 1 then 1 else 0) + 2 * Or(a / 2, b / 2)
  }

  // x << s on 64 bits (zero once s reaches 64, when the product is a multiple of 2^64).
  function ShiftLeft(x: nat, s: nat): (r: nat)
    ensures r < TWO64
  {
    (x * Pow2(s)) % TWO64
  }

  // ---- Varints ----

  function Varint(v: nat): (bs: Bytes)
    ensures |bs| >= 1
  {
    if v >= 128 then [(v % 128 + 128) as byte] + Varint(v / 128) else [v as byte]
  }

  // A varint cut off by the end of the buffer keeps the bits read so far.
  datatype VarintResult = NoVarint(bits: nat) | GotVarint(value: nat, next: nat)

  // Reads bytes from position i on, or-ing seven bits each into acc.
  function ReadVarint(data: Bytes, i: nat, shift: nat, acc: nat): (r: VarintResult)
    ensures r.GotVarint? ==> i < r.next <= |data|
    decreases |data| - i
  {
    if i >= |data| then NoVarint(acc)
    else
      var b := data[i] as int;
      var acc' := Or(acc, ShiftLeft(b % 128, shift));
      if b < 128 then GotVarint(acc', i + 1) else ReadVarint(data, i + 1, shift + 7, acc')
  }

  lemma {:induction false} OrDisjoint(a: nat, d: nat, s: nat)
    requires a < Pow2(s)
    ensures Or(a, d * Pow2(s)) == a + d * Pow2(s)
  {
    if s > 0 && a != 0 && d * Pow2(s) != 0 {
      var half := d * Pow2(s - 1);
      assert d * Pow2(s) == 2 * half;
      OrDisjoint(a / 2, d, s - 1);
      assert a == a % 2 + 2 * (a / 2);
    }
  }

  lemma Pow2Step(s: nat)
    ensures Pow2(s + 7) == 128 * Pow2(s)
  {
    assert Pow2(s + 7) == 2 * Pow2(s + 6) && Pow2(s + 6) == 2 * Pow2(s + 5) && Pow2(s + 5) == 2 * Pow2(s + 4);
    assert Pow2(s + 4) == 2 * Pow2(s + 3) && Pow2(s + 3) == 2 * Pow2(s + 2) && Pow2(s + 2) == 2 * Pow2(s + 1);
  }

  // A shift within the word loses nothing.
  lemma ShiftExact(d: nat, s: nat)
    requires d * Pow2(s) < TWO64
    ensures ShiftLeft(d, s) == d * Pow2(s)
  {
  }

  // Reading one byte of the digit d at shift s adds d * 2^s.
  lemma DigitRead(acc: nat, d: nat, s: nat)
    requires acc < Pow2(s) && d * Pow2(s) < TWO64
    ensures Or(acc, ShiftLeft(d, s)) == acc + d * Pow2(s)
  {
    ShiftExact(d, s);
    OrDisjoint(acc, d, s);
  }

  // Splitting off the lowest digit d of d + 128 * q, with room for what was read before it.
  lemma SplitDigit(d: nat, q: nat, p: nat, acc: nat)
    requires acc < p && d < 128
    ensures (d + 128 * q) * p == d * p + q * (128 * p)
    ensures d * p <= (d + 128 * q) * p && q * (128 * p) <= (d + 128 * q) * p
    ensures acc + d * p < 128 * p
  {
    assert (d + 128 * q) * p == d * p + (128 * q) * p;
    assert (128 * q) * p == q * (128 * p);
    assert d * p <= 127 * p;
  }

  lemma ReadStep(data: Bytes, i: nat, s: nat, acc: nat, d: nat)
    requires i < |data| && data[i] as int % 128 == d && acc < Pow2(s) && d * Pow2(s) < TWO64
    ensures ReadVarint(data, i, s, acc) ==
            if data[i] < 128 then GotVarint(acc + d * Pow2(s), i + 1)
            else ReadVarint(data, i + 1, s + 7, acc + d * Pow2(s))
  {
    DigitRead(acc, d, s);
  }

  /** Reading back a varint gives its value, wherever it stands. */
  lemma {:induction false} VarintReadBack(data: Bytes, i: nat, v: nat, s: nat, acc: nat)
    requires acc < Pow2(s) && v * Pow2(s) < TWO64
    requires i + |Varint(v)| <= |data| && data[i..i + |Varint(v)|] == Varint(v)
    ensures ReadVarint(data, i, s, acc) == GotVarint(acc + v * Pow2(s), i + |Varint(v)|)
    decreases v
  {
    var bs := Varint(v);
    assert data[i] == data[i..i + |bs|][0] == bs[0];
    assert v == v % 128 + 128 * (v / 128);
    SplitDigit(v % 128, v / 128, Pow2(s), acc);
    ReadStep(data, i, s, acc, v % 128);
    if v >= 128 {
      var rest := Varint(v / 128);
      Pow2Step(s);
      SplitAt(data, i, [bs[0]], rest);
      VarintReadBack(data, i + 1, v / 128, s + 7, acc + (v % 128) * Pow2(s));
    }
  }

  lemma VarintRoundTrip(data: Bytes, i: nat, v: nat)
    requires v < TWO64 && i + |Varint(v)| <= |data| && data[i..i + |Varint(v)|] == Varint(v)
    ensures ReadVarint(data, i, 0, 0) == GotVarint(v, i + |Varint(v)|)
  {
    VarintReadBack(data, i, v, 0, 0);
  }

  // Naturals that fit in k base-128 digits lie below Cap(k).
  function Cap(k: nat): (c: nat)
    ensures c >= 1
  {
    if k == 0 then 1 else 128 * Cap(k - 1)
  }

  lemma {:induction false} VarintLength(v: nat, k: nat)
    requires 1 <= k && v < Cap(k)
    ensures |Varint(v)| <= k
    ensures v >= Cap(k - 1) && v > 0 ==> |Varint(v)| == k
  {
    if v >= 128 {
      VarintLength(v / 128, k - 1);
    }
  }

  /** A word takes at most ten bytes, and a negative int64 takes exactly ten. */
  lemma WordLength(x: int)
    requires Int64(x)
    ensures 1 <= |Varint(ToWord(x))| <= 10
    ensures x < 0 ==> |Varint(ToWord(x))| == 10
  {
    assert Cap(9) == 0x8000_0000_0000_0000 && Cap(10) == 128 * Cap(9);
    VarintLength(ToWord(x), 10);
  }

  // ---- Fields ----

  datatype Kind = AsVarint | AsBytes

  datatype Field = VarintField(num: nat, value: nat) | BytesField(num: nat, bytes: Bytes)

  type Schema = map<int, Kind>

  datatype WireError = UnexpectedEOF | WrongType | Unrecognized | SliceOutOfRange

  datatype FieldResult = GotField(field: Field, next: nat) | Torn(field: Field) | BadField(why: WireError)

  function Tag(f: Field): (t: byte)
    requires 1 <= f.num < 16
  {
    (f.num * 8 + if f.VarintField? then 0 else 2) as byte
  }

  ghost predicate FieldFits(schema: Schema, f: Field) {
    && 1 <= f.num < 16 && f.num in schema
    && match f {
       case VarintField(num, v) => schema[num] == AsVarint && v < TWO64
       case BytesField(num, bs) => schema[num] == AsBytes && |bs| < TWO63
       }
  }

  function EncodeField(f: Field): (bs: Bytes)
    requires 1 <= f.num < 16
    ensures |bs| >= 2
  {
    match f
    case VarintField(_, v) => [Tag(f)] + Varint(v)
    case BytesField(_, payload) => [Tag(f)] + Varint(|payload|) + payload
  }

  // int32(x) of a 64-bit word x.
  function ToInt32(x: nat): int {
    var low := x % 0x1_0000_0000;
    if low >= 0x8000_0000 then low - 0x1_0000_0000 else low
  }

  // The end of a length-delimited value: a 64-bit signed sum, which may wrap around.
  function PostIndex(index: nat, length: nat): int {
    FromWord((index + length) % TWO64)
  }

  function ReadBytesField(data: Bytes, num: nat, i: nat): (r: FieldResult)
    ensures r.GotField? ==> i < r.next <= |data|
  {
    match ReadVarint(data, i, 0, 0)
    case NoVarint(_) => BadField(UnexpectedEOF)
    case GotVarint(length, index) =>
      var post := PostIndex(index, length);
      if post > |data| then BadField(UnexpectedEOF)
      else if post < index then BadField(SliceOutOfRange)
      else GotField(BytesField(num, data[index..post]), post)
  }

  // One turn of the loop of every generated Unmarshal: the key, then the value.
  function ReadField(schema: Schema, data: Bytes, i: nat): (r: FieldResult)
    ensures r.GotField? ==> i < r.next <= |data|
  {
    match ReadVarint(data, i, 0, 0)
    case NoVarint(_) => BadField(UnexpectedEOF)
    case GotVarint(wire, j) =>
      var num := ToInt32(wire / 8);
      if num !in schema || num < 0 then BadField(Unrecognized)
      else if wire % 8 != (if schema[num] == AsVarint then 0 else 2) then BadField(WrongType)
      else if schema[num] == AsBytes then ReadBytesField(data, num, j)
      else
        match ReadVarint(data, j, 0, 0)
        case NoVarint(bits) => Torn(VarintField(num, bits))
        case GotVarint(value, k) => GotField(VarintField(num, value), k)
  }

  lemma KeyReadBack(data: Bytes, i: nat)
    requires i < |data| && data[i] < 128
    ensures ReadVarint(data, i, 0, 0) == GotVarint(data[i] as int, i + 1)
  {
    var v := data[i] as int;
    assert Varint(v) == [data[i]];
    assert data[i..i + 1] == Varint(v);
    VarintRoundTrip(data, i, v);
  }

  lemma TagSplits(f: Field)
    requires 1 <= f.num < 16
    ensures Tag(f) < 128
    ensures ToInt32(Tag(f) as int / 8) == f.num && Tag(f) as int % 8 == if f.VarintField? then 0 else 2
  {
  }

  lemma BytesAt(data: Bytes, num: nat, i: nat, index: nat, payload: Bytes)
    requires ReadVarint(data, i, 0, 0) == GotVarint(|payload|, index)
    requires index + |payload| <= |data| < TWO63 && data[index..index + |payload|] == payload
    ensures ReadBytesField(data, num, i) == GotField(BytesField(num, payload), index + |payload|)
  {
  }

  lemma LengthReadBack(data: Bytes, i: nat, head: Bytes, payload: Bytes)
    requires head == Varint(|payload|) && |data| < TWO63
    requires i + |head| + |payload| <= |data| && data[i..i + |head| + |payload|] == head + payload
    ensures ReadVarint(data, i, 0, 0) == GotVarint(|payload|, i + |head|)
    ensures data[i + |head|..i + |head| + |payload|] == payload
  {
    SplitAt(data, i, head, payload);
    VarintRoundTrip(data, i, |payload|);
  }

  lemma KeyOfField(schema: Schema, data: Bytes, i: nat, f: Field)
    requires FieldFits(schema, f) && i < |data| && data[i] == Tag(f)
    ensures ReadField(schema, data, i) ==
            if f.BytesField? then ReadBytesField(data, f.num, i + 1)
            else match ReadVarint(data, i + 1, 0, 0)
                 case NoVarint(bits) => Torn(VarintField(f.num, bits))
                 case GotVarint(value, k) => GotField(VarintField(f.num, value), k)
  {
    TagSplits(f);
    KeyReadBack(data, i);
  }

  /** Reading back an encoded field gives that field and stops right behind it. */
  lemma FieldReadBack(schema: Schema, data: Bytes, i: nat, f: Field)
    requires FieldFits(schema, f)
    requires i + |EncodeField(f)| <= |data| < TWO63 && data[i..i + |EncodeField(f)|] == EncodeField(f)
    ensures ReadField(schema, data, i) == GotField(f, i + |EncodeField(f)|)
  {
    var bs := EncodeField(f);
    assert data[i] == data[i..i + |bs|][0] == Tag(f);
    assert data[i + 1..i + |bs|] == data[i..i + |bs|][1..];
    KeyOfField(schema, data, i, f);
    match f {
      case VarintField(_, v) =>
        assert bs[1..] == Varint(v);
        VarintRoundTrip(data, i + 1, v);
      case BytesField(num, payload) =>
        assert bs[1..] == Varint(|payload|) + payload;
        LengthReadBack(data, i + 1, Varint(|payload|), payload);
        BytesAt(data, num, i + 1, i + 1 + |Varint(|payload|)|, payload);
    }
  }
}
