/** The loop shared by every generated Unmarshal: read a field, assign it, go on.
    A message type supplies its schema and what each field does to the message. */
module Unmarshalling {
  import Collections
  import opened RaftTypes
  import opened Wire

  datatype Status = NoError | Failed(why: WireError)

  // The message as left behind, and the error returned.
  datatype Parsed<T> = Parsed(value: T, status: Status)

  // assign(t, f, complete): the effect of field f on message t; complete is false when the
  // buffer ended inside the field's varint, whose bits have by then been or-ed in.
  datatype Format<!T> = Format(schema: Schema, assign: (T, Field, bool) -> Parsed<T>)

  function UnmarshalFrom<T>(c: Format<T>, data: Bytes, i: nat, t: T): Parsed<T>
    decreases |data| - i
  {
    if i >= |data| then Parsed(t, NoError)
    else
      match ReadField(c.schema, data, i)
      case BadField(why) => Parsed(t, Failed(why))
      case Torn(f) => Parsed(c.assign(t, f, false).value, Failed(UnexpectedEOF))
      case GotField(f, next) =>
        var a := c.assign(t, f, true);
        if a.status.Failed? then a else UnmarshalFrom(c, data, next, a.value)
  }

  // ---- The loops ----

  method ReadVarintAt(data: Bytes, i: nat) returns (r: VarintResult)
    ensures r == ReadVarint(data, i, 0, 0)
  {
    var index, shift, acc := i, 0, 0;
    while index < |data|
      invariant ReadVarint(data, i, 0, 0) == ReadVarint(data, index, shift, acc)
    {
      var b := data[index] as int;
      index := index + 1;
      acc := Or(acc, ShiftLeft(b % 128, shift));
      if b < 128 {
        return GotVarint(acc, index);
      }
      shift := shift + 7;
    }
    return NoVarint(acc);
  }

  method ReadFieldAt(schema: Schema, data: Bytes, i: nat) returns (r: FieldResult)
    ensures r == ReadField(schema, data, i)
  {
    var key := ReadVarintAt(data, i);
    if key.NoVarint? {
      return BadField(UnexpectedEOF);
    }
    var num := ToInt32(key.value / 8);
    if num !in schema || num < 0 {
      return BadField(Unrecognized);
    }
    if key.value % 8 != (if schema[num] == AsVarint then 0 else 2) {
      return BadField(WrongType);
    }
    var v := ReadVarintAt(data, key.next);
    if schema[num] == AsVarint {
      return if v.NoVarint? then Torn(VarintField(num, v.bits)) else GotField(VarintField(num, v.value), v.next);
    }
    if v.NoVarint? {
      return BadField(UnexpectedEOF);
    }
    var post := PostIndex(v.next, v.value);
    if post > |data| {
      return BadField(UnexpectedEOF);
    }
    if post < v.next {
      return BadField(SliceOutOfRange);
    }
    return GotField(BytesField(num, data[v.next..post]), post);
  }

  method Unmarshal<T>(c: Format<T>, data: Bytes, zero: T) returns (r: Parsed<T>)
    ensures r == UnmarshalFrom(c, data, 0, zero)
  {
    var index, t := 0, zero;
    while index < |data|
      invariant UnmarshalFrom(c, data, 0, zero) == UnmarshalFrom(c, data, index, t)
    {
      var field := ReadFieldAt(c.schema, data, index);
      match field {
        case BadField(why) => return Parsed(t, Failed(why));
        case Torn(f) => return Parsed(c.assign(t, f, false).value, Failed(UnexpectedEOF));
        case GotField(f, next) =>
          var a := c.assign(t, f, true);
          if a.status.Failed? {
            return a;
          }
          index, t := next, a.value;
      }
    }
    return Parsed(t, NoError);
  }

  // ---- Reading back what was encoded ----

  function EncodeAll(fs: seq<Field>): (bs: Bytes)
    requires forall k :: 0 <= k < |fs| ==> 1 <= fs[k].num < 16
  {
    if fs == [] then [] else EncodeField(fs[0]) + EncodeAll(fs[1..])
  }

  function AssignAll<T>(c: Format<T>, t: T, fs: seq<Field>): Parsed<T> {
    if fs == [] then Parsed(t, NoError)
    else
      var a := c.assign(t, fs[0], true);
      if a.status.Failed? then a else AssignAll(c, a.value, fs[1..])
  }

  ghost predicate AllFit(schema: Schema, fs: seq<Field>) {
    forall k :: 0 <= k < |fs| ==> FieldFits(schema, fs[k])
  }

  lemma {:induction false} EncodeAllSplit(fs: seq<Field>, gs: seq<Field>)
    requires forall k :: 0 <= k < |fs| ==> 1 <= fs[k].num < 16
    requires forall k :: 0 <= k < |gs| ==> 1 <= gs[k].num < 16
    ensures EncodeAll(fs + gs) == EncodeAll(fs) + EncodeAll(gs)
  {
    if fs == [] {
      assert fs + gs == gs;
    } else {
      assert (fs + gs)[1..] == fs[1..] + gs;
      EncodeAllSplit(fs[1..], gs);
    }
  }

  lemma EncodeOne(f: Field)
    requires 1 <= f.num < 16
    ensures EncodeAll([f]) == EncodeField(f)
  {
    assert [f][1..] == [];
    assert EncodeField(f) + [] == EncodeField(f);
  }

  lemma EncodeTwo(a: Field, b: Field)
    requires 1 <= a.num < 16 && 1 <= b.num < 16
    ensures EncodeAll([a, b]) == EncodeField(a) + EncodeField(b)
  {
    assert [a, b][1..] == [b];
    EncodeOne(b);
  }

  lemma EncodeThree(a: Field, b: Field, c: Field)
    requires 1 <= a.num < 16 && 1 <= b.num < 16 && 1 <= c.num < 16
    ensures EncodeAll([a, b, c]) == EncodeField(a) + EncodeField(b) + EncodeField(c)
  {
    EncodeTwo(b, c);
    assert [a, b, c][1..] == [b, c];
    Collections.Assoc(EncodeField(a), EncodeField(b), EncodeField(c));
  }

  lemma EncodeFour(a: Field, b: Field, c: Field, d: Field)
    requires 1 <= a.num < 16 && 1 <= b.num < 16 && 1 <= c.num < 16 && 1 <= d.num < 16
    ensures EncodeAll([a, b, c, d]) == EncodeField(a) + EncodeField(b) + EncodeField(c) + EncodeField(d)
  {
    EncodeThree(b, c, d);
    assert [a, b, c, d][1..] == [b, c, d];
    Collections.Assoc(EncodeField(a), EncodeField(b) + EncodeField(c), EncodeField(d));
    Collections.Assoc(EncodeField(a), EncodeField(b), EncodeField(c));
  }

  // Assigning from field k on: that field, then the rest.
  lemma AssignNext<T>(c: Format<T>, t: T, fs: seq<Field>, k: nat, u: T)
    requires k < |fs| && c.assign(t, fs[k], true) == Parsed(u, NoError)
    ensures AssignAll(c, t, fs[k..]) == AssignAll(c, u, fs[k + 1..])
  {
    assert fs[k..][0] == fs[k] && fs[k..][1..] == fs[k + 1..];
  }

  lemma AssignDone<T>(c: Format<T>, t: T, fs: seq<Field>)
    ensures AssignAll(c, t, fs[|fs|..]) == Parsed(t, NoError)
    ensures fs[0..] == fs
  {
  }

  // Varint fields take at most eleven bytes each.
  lemma {:induction false} VarintsShort(fs: seq<Field>)
    requires forall j :: 0 <= j < |fs| ==> 1 <= fs[j].num < 16 && fs[j].VarintField? && fs[j].value < TWO64
    ensures |EncodeAll(fs)| <= 11 * |fs|
  {
    if fs != [] {
      var x := FromWord(fs[0].value);
      assert ToWord(x) == fs[0].value;
      WordLength(x);
      VarintsShort(fs[1..]);
    }
  }

  // A payload is no longer than the list it is encoded in.
  lemma {:induction false} PayloadWithin(fs: seq<Field>, k: nat)
    requires forall j :: 0 <= j < |fs| ==> 1 <= fs[j].num < 16
    requires k < |fs| && fs[k].BytesField?
    ensures |fs[k].bytes| < |EncodeAll(fs)|
  {
    if k > 0 {
      PayloadWithin(fs[1..], k - 1);
    }
  }

  lemma {:induction false} AssignAllSplit<T>(c: Format<T>, t: T, fs: seq<Field>, gs: seq<Field>)
    requires AssignAll(c, t, fs).status == NoError
    ensures AssignAll(c, t, fs + gs) == AssignAll(c, AssignAll(c, t, fs).value, gs)
  {
    if fs == [] {
      assert fs + gs == gs;
    } else {
      assert (fs + gs)[1..] == fs[1..] + gs;
      AssignAllSplit(c, c.assign(t, fs[0], true).value, fs[1..], gs);
    }
  }

  lemma GotStep<T>(c: Format<T>, data: Bytes, i: nat, f: Field, next: nat, t: T, u: T)
    requires i < |data| && ReadField(c.schema, data, i) == GotField(f, next)
    requires c.assign(t, f, true) == Parsed(u, NoError)
    ensures UnmarshalFrom(c, data, i, t) == UnmarshalFrom(c, data, next, u)
  {
  }

  lemma BadStep<T>(c: Format<T>, data: Bytes, i: nat, why: WireError, t: T)
    requires i < |data| && ReadField(c.schema, data, i) == BadField(why)
    ensures UnmarshalFrom(c, data, i, t) == Parsed(t, Failed(why))
  {
  }

  lemma OneField<T>(c: Format<T>, data: Bytes, i: nat, j: nat, f: Field, t: T, u: T)
    requires FieldFits(c.schema, f) && |data| < TWO63
    requires i <= j == i + |EncodeField(f)| <= |data| && data[i..j] == EncodeField(f)
    requires c.assign(t, f, true) == Parsed(u, NoError)
    ensures UnmarshalFrom(c, data, i, t) == UnmarshalFrom(c, data, j, u)
  {
    FieldReadBack(c.schema, data, i, f);
    GotStep(c, data, i, f, j, t, u);
  }

  // The first field of an encoded list, and what is left for the rest of it.
  lemma HeadSplit(schema: Schema, data: Bytes, i: nat, end: nat, fs: seq<Field>) returns (j: nat)
    requires AllFit(schema, fs) && fs != []
    requires i <= end == i + |EncodeAll(fs)| <= |data| && data[i..end] == EncodeAll(fs)
    ensures FieldFits(schema, fs[0]) && AllFit(schema, fs[1..])
    ensures i <= j == i + |EncodeField(fs[0])| <= |data| && data[i..j] == EncodeField(fs[0])
    ensures end == j + |EncodeAll(fs[1..])| && data[j..end] == EncodeAll(fs[1..])
  {
    TailFits(schema, fs);
    j := SplitHere(data, i, end, EncodeField(fs[0]), EncodeAll(fs[1..]));
  }

  lemma SplitHere(data: Bytes, i: nat, end: nat, head: Bytes, rest: Bytes) returns (j: nat)
    requires i <= end == i + |head + rest| <= |data| && data[i..end] == head + rest
    ensures i <= j == i + |head| <= |data| && data[i..j] == head
    ensures end == j + |rest| && data[j..end] == rest
  {
    j := i + |head|;
    Collections.SplitAt(data, i, head, rest);
  }

  lemma TailFits(schema: Schema, fs: seq<Field>)
    requires AllFit(schema, fs) && fs != []
    ensures FieldFits(schema, fs[0]) && AllFit(schema, fs[1..])
  {
    assert forall k :: 0 <= k < |fs[1..]| ==> fs[1..][k] == fs[k + 1];
  }

  /** Unmarshalling from the start of an encoded field list assigns exactly those fields, in
      order, and goes on behind them. */
  lemma {:induction false} FieldsReadBack<T>(c: Format<T>, data: Bytes, i: nat, end: nat, fs: seq<Field>, t: T, v: T)
    requires AllFit(c.schema, fs) && |data| < TWO63
    requires i <= end == i + |EncodeAll(fs)| <= |data| && data[i..end] == EncodeAll(fs)
    requires AssignAll(c, t, fs) == Parsed(v, NoError)
    ensures UnmarshalFrom(c, data, i, t) == UnmarshalFrom(c, data, end, v)
    decreases |fs|
  {
    if fs != [] {
      var j := HeadSplit(c.schema, data, i, end, fs);
      var u := c.assign(t, fs[0], true).value;
      OneField(c, data, i, j, fs[0], t, u);
      FieldsReadBack(c, data, j, end, fs[1..], u, v);
    }
  }

  /** A whole buffer holding exactly an encoded field list. */
  lemma WholeReadBack<T>(c: Format<T>, data: Bytes, fs: seq<Field>, t: T, v: T)
    requires AllFit(c.schema, fs) && data == EncodeAll(fs) && |data| < TWO63
    requires AssignAll(c, t, fs) == Parsed(v, NoError)
    ensures UnmarshalFrom(c, data, 0, t) == Parsed(v, NoError)
  {
    assert data[0..|data|] == data;
    FieldsReadBack(c, data, 0, |data|, fs, t, v);
  }
}
