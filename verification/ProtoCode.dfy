/** The writer and reader objects and the emitted loops over them, proved against the
    schema interpreter. */
module ProtoCode {
  import opened Arith
  import opened Bytes
  import opened Options
  import opened Wire
  import opened Proto
  import Bits

  /** ProtoWriter: appends to a byte string. */
  class Writer {
    var out: seq<Byte>

    constructor ()
      ensures out == []
    {
      out := [];
    }

    method RawByte(b: Byte)
      modifies this
      ensures out == old(out) + [b]
    {
      out := out + [b];
    }

    method RawBytes(b: seq<Byte>)
      modifies this
      ensures out == old(out) + b
    {
      out := out + b;
    }

    method WriteVarint(value: nat)
      modifies this
      ensures out == old(out) + Varint(value)
    {
      var v := value;
      while v >= 0x80
        invariant out + Varint(v) == old(out) + Varint(value)
        decreases v
      {
        ContinuationByte(v);
        RawByte(Bits.Or(v % 0x100, 0x80));
        v := v / 0x80;
      }
      RawByte(v);
    }

    method WriteFieldTag(number: nat, wire: nat)
      requires wire < 8
      modifies this
      ensures out == old(out) + WriteTag(number, wire)
    {
      TagKey(number, wire);
      WriteVarint(Bits.Or(8 * number, wire));
    }

    /** fixed32 and fixed64: little-endian bytes, low byte first. */
    method WriteFixed(value: nat, n: nat)
      modifies this
      ensures out == old(out) + LeBytes(value, n)
    {
      var v := value;
      for i := 0 to n
        invariant out + LeBytes(v, n - i) == old(out) + LeBytes(value, n)
      {
        RawByte(v % 0x100);
        v := v / 0x100;
      }
    }

    method LengthDelimited(b: seq<Byte>)
      modifies this
      ensures out == old(out) + Blob(b)
    {
      WriteVarint(|b|);
      RawBytes(b);
    }

    method WriteValue(s: Scalar, n: int)
      modifies this
      ensures out == old(out) + WriteNum(s, n)
    {
      hide ToWire;
      var w := ToWire(s, n);
      if WireOf(s) == FIXED32 {
        WriteFixed(w, 4);
      } else if WireOf(s) == FIXED64 {
        WriteFixed(w, 8);
      } else {
        WriteVarint(w);
      }
    }
  }

  lemma ContinuationByte(v: nat)
    ensures Bits.Or(v % 0x100, 0x80) == v % 0x80 + 0x80
  {
    hide Bits.Or;
    var b := v % 0x100;
    Pow2Values();
    assert Pow2(7) == 0x80 by { assert Pow2(8) == 2 * Pow2(7); }
    if b < 0x80 {
      Bits.OrDisjoint(b, 1, 7);
    } else {
      OrSelf(b - 0x80, 7);
    }
  }

  lemma {:induction false} OrSelf(x: nat, k: nat)
    requires x < Pow2(k)
    ensures Bits.Or(x + Pow2(k), Pow2(k)) == x + Pow2(k)
  {
    if k == 0 {
      assert Bits.Or(1, 1) == 1;
    } else {
      OrSelf(x / 2, k - 1);
      var p := Pow2(k - 1);
      assert (x + 2 * p) / 2 == x / 2 + p && (x + 2 * p) % 2 == x % 2;
      assert Bits.Or(x + 2 * p, 2 * p) == (if (x + 2 * p) % 2 == 1 || (2 * p) % 2 == 1 then 1 else 0) + 2 * Bits.Or((x + 2 * p) / 2, (2 * p) / 2);
    }
  }

  lemma TagKey(number: nat, wire: nat)
    requires wire < 8
    ensures Bits.Or(8 * number, wire) == 8 * number + wire
  {
    assert Pow2(3) == 8;
    Bits.OrDisjoint(wire, number, 3);
  }

  // ----- encode -----

  method EncodeMessage(s: Schema, m: Msg, w: Writer)
    modifies w
    ensures w.out == old(w.out) + Encode(s, m)
    decreases s, 3
  {
    hide EncodeField;
    ghost var start := w.out;
    for i := 0 to |s.fields|
      invariant w.out + EncodeFields(s.fields[i..], m) == start + EncodeFields(s.fields, m)
    {
      assert s.fields[i..][1..] == s.fields[i + 1..];
      var f := s.fields[i];
      if f.number in m.slots {
        EncodeMember(f, m.slots[f.number], w);
      }
    }
  }

  method EncodeMember(f: Field, slot: Slot, w: Writer)
    modifies w
    ensures w.out == old(w.out) + EncodeField(f, slot)
    decreases f, 2
  {
    hide WriteNum, Varint, WriteTag, Blob, EncodeNested, NonDefault;
    match f.ftype
    case Numeric(s) =>
      if slot.Num? && !f.repeated && NonDefault(s, slot.n) {
        w.WriteFieldTag(f.number, WireOf(s));
        w.WriteValue(s, slot.n);
      } else if slot.Nums? {
        if IsPacked(f) {
          if slot.ns != [] {
            w.WriteFieldTag(f.number, DELIMITED);
            w.WriteVarint(PackedSize(s, slot.ns));
            EncodeElements(s, slot.ns, w);
          }
        } else {
          EncodeUnpackedTo(f.number, s, slot.ns, w);
        }
      }
    case Text =>
      if slot.Str? && slot.b != [] {
        w.WriteFieldTag(f.number, DELIMITED);
        w.LengthDelimited(slot.b);
      } else if slot.Strs? {
        EncodeTextsTo(f.number, slot.bs, w);
      }
    case Nested(sub) =>
      if slot.Sub? && slot.has {
        EncodeNestedTo(f, slot.m, w);
      } else if slot.Subs? {
        ghost var start := w.out;
        for i := 0 to |slot.ms|
          invariant w.out + EncodeNestedAll(f, slot.ms[i..]) == start + EncodeNestedAll(f, slot.ms)
        {
          assert slot.ms[i..][1..] == slot.ms[i + 1..];
          EncodeNestedTo(f, slot.ms[i], w);
        }
      }
  }

  method EncodeNestedTo(f: Field, m: Msg, w: Writer)
    requires f.ftype.Nested?
    modifies w
    ensures w.out == old(w.out) + EncodeNested(f, m)
    decreases f, 1
  {
    hide Encode, Size, Varint, WriteTag;
    w.WriteFieldTag(f.number, DELIMITED);
    w.WriteVarint(Size(f.ftype.schema, m));
    EncodeMessage(f.ftype.schema, m, w);
  }

  method EncodeElements(s: Scalar, ns: seq<int>, w: Writer)
    modifies w
    ensures w.out == old(w.out) + WriteNums(s, ns)
  {
    hide WriteNum;
    for i := 0 to |ns|
      invariant w.out + WriteNums(s, ns[i..]) == old(w.out) + WriteNums(s, ns)
    {
      assert ns[i..][1..] == ns[i + 1..];
      w.WriteValue(s, ns[i]);
    }
  }

  method EncodeUnpackedTo(number: nat, s: Scalar, ns: seq<int>, w: Writer)
    modifies w
    ensures w.out == old(w.out) + EncodeUnpacked(number, s, ns)
  {
    hide WriteNum, WriteTag;
    for i := 0 to |ns|
      invariant w.out + EncodeUnpacked(number, s, ns[i..]) == old(w.out) + EncodeUnpacked(number, s, ns)
    {
      assert ns[i..][1..] == ns[i + 1..];
      w.WriteFieldTag(number, WireOf(s));
      w.WriteValue(s, ns[i]);
    }
  }

  method EncodeTextsTo(number: nat, bs: seq<seq<Byte>>, w: Writer)
    modifies w
    ensures w.out == old(w.out) + EncodeTexts(number, bs)
  {
    hide Blob, WriteTag;
    for i := 0 to |bs|
      invariant w.out + EncodeTexts(number, bs[i..]) == old(w.out) + EncodeTexts(number, bs)
    {
      assert bs[i..][1..] == bs[i + 1..];
      w.WriteFieldTag(number, DELIMITED);
      w.LengthDelimited(bs[i]);
    }
  }

  // ----- the reader -----

  /** ProtoReader: a range of a byte string, a position in it and a latched error flag. */
  class Reader {
    const data: seq<Byte>
    const end: nat
    var ptr: nat
    var ok: bool

    ghost predicate Valid()
      reads this
    {
      ptr <= end <= |data|
    }

    ghost function Rest(): (b: seq<Byte>)
      reads this
      requires Valid()
    {
      data[ptr..end]
    }

    constructor (data: seq<Byte>, from: nat, end: nat)
      requires from <= end <= |data|
      ensures Valid() && Rest() == data[from..end] && ok
    {
      this.data, this.end, ptr, ok := data, end, from, true;
    }

    /** The outcome of a read against its specification: the value and the advanced
        position, or the error flag. */
    ghost predicate Outcome<T>(r: Read<T>, got: bool, v: T)
      reads this
      requires Valid()
    {
      if got then ok && r == Got(v, Rest()) else !ok && r.Fail?
    }

    method ReadVarintValue() returns (got: bool, v: nat)
      requires Valid() && ok
      modifies this
      ensures Valid() && Outcome(ReadVarint(old(Rest())), got, v)
    {
      hide ReadDigits, Bits.Or, Bits.Shl, Pow2, Prefixed;
      Pow2Zero();
      PrefixedZero(ReadDigits(Rest(), 10));
      var shift: nat := 0;
      v := 0;
      ghost var start, n := Rest(), 0;
      while shift < 64
        invariant Valid() && ok && shift == 7 * n && n <= 10
        invariant v < Pow2(shift) && |Rest()| == |start| - n && Rest() == start[n..]
        invariant ReadDigits(start, 10) == Prefixed(v, shift, ReadDigits(Rest(), 10 - n))
        decreases 70 - shift
      {
        if ptr >= end {
          NoDigits(Rest(), 10 - n);
          PrefixedFail(v, shift, ReadDigits(Rest(), 10 - n));
          ok := false;
          got := false;
          return;
        }
        var b := data[ptr];
        ghost var before := Rest();
        assert before[0] == b;
        ptr := ptr + 1;
        assert Rest() == before[1..];
        OneDigit(before, 10 - n, v, shift);
        DigitOr(v, b, shift);
        DigitFits(v, b % 0x80, shift);
        ghost var full := v + Pow2(shift) * (b % 0x80);
        v := Bits.Or(v, Bits.Shl(b % 0x80, shift) % TWO64);
        if b < 0x80 {
          got := true;
          return;
        }
        Continues(full, v, shift, Rest(), 10 - n - 1);
        shift := shift + 7;
        n := n + 1;
      }
      NoDigits(Rest(), 0);
      PrefixedFail(v, shift, ReadDigits(Rest(), 0));
      ok := false;
      got := false;
    }

    /** fixed32 and fixed64 */
    method ReadFixedValue(n: nat) returns (got: bool, v: nat)
      requires Valid() && ok
      modifies this
      ensures Valid() && Outcome(ReadFixed(old(Rest()), n), got, v)
    {
      v := 0;
      if end - ptr < n {
        ok := false;
        return false, 0;
      }
      ghost var b := Rest()[..n];
      assert b == data[ptr..ptr + n];
      LeValNonNegative(b);
      v := LeVal(data[ptr..ptr + n]);
      ptr := ptr + n;
      got := true;
    }

    /** The length prefix shared by length_delimited, sub_reader and skip_field: on
        success the next `len` bytes are there. */
    method ReadLength() returns (got: bool, len: nat)
      requires Valid() && ok
      modifies this
      ensures Valid()
      ensures got ==> ok && ptr + len <= end && |Rest()| < |old(Rest())|
      ensures got ==> ReadBlob(old(Rest())) == Got(data[ptr..ptr + len], data[ptr + len..end])
      ensures !got ==> !ok && ReadBlob(old(Rest())).Fail?
    {
      hide ReadVarint;
      got, len := ReadVarintValue();
      if !got {
        return;
      }
      if end - ptr < len {
        ok := false;
        return false, 0;
      }
      assert Rest()[..len] == data[ptr..ptr + len] && Rest()[len..] == data[ptr + len..end];
    }

    method LengthDelimited() returns (got: bool, v: seq<Byte>)
      requires Valid() && ok
      modifies this
      ensures Valid() && Outcome(ReadBlob(old(Rest())), got, v)
    {
      hide ReadBlob;
      var len;
      v := [];
      got, len := ReadLength();
      if got {
        v := data[ptr..ptr + len];
        ptr := ptr + len;
      }
    }

    /** A reader over the next length-delimited region. */
    method SubReader() returns (got: bool, sub: Reader)
      requires Valid() && ok
      modifies this
      ensures Valid() && fresh(sub) && sub.Valid()
      ensures got ==> sub.ok && |sub.Rest()| < |old(Rest())|
      ensures Outcome(ReadBlob(old(Rest())), got, sub.Rest())
    {
      hide ReadBlob;
      var len;
      got, len := ReadLength();
      if got {
        sub := new Reader(data, ptr, ptr + len);
        ptr := ptr + len;
      } else {
        sub := new Reader([], 0, 0);
      }
    }

    /** False at the clean end of input and on error; `ok` tells them apart. */
    method ReadFieldTag() returns (got: bool, tag: Tag)
      requires Valid() && ok
      modifies this
      ensures Valid()
      ensures old(Rest()) == [] ==> !got && ok && Rest() == []
      ensures old(Rest()) != [] ==> Outcome(ReadTag(old(Rest())), got, tag)
    {
      hide ReadVarint;
      tag := Tag(0, 0);
      if ptr >= end {
        return false, tag;
      }
      var key;
      got, key := ReadVarintValue();
      if got {
        tag := Tag((key / 8) % TWO32, key % 8);
      }
    }

    method SkipField(wire: nat) returns (got: bool)
      requires Valid() && ok
      modifies this
      ensures Valid() && Outcome(Skip(wire, old(Rest())), got, ())
    {
      hide ReadVarint, ReadBlob, ReadFixed;
      var v, len;
      if wire == VARINT {
        got, v := ReadVarintValue();
      } else if wire == FIXED64 {
        got, v := ReadFixedValue(8);
      } else if wire == FIXED32 {
        got, v := ReadFixedValue(4);
      } else if wire == DELIMITED {
        got, len := ReadLength();
        if got {
          ptr := ptr + len;
        }
      } else {
        ok := false;
        got := false;
      }
    }

    method ReadValue(s: Scalar) returns (got: bool, n: int)
      requires Valid() && ok
      modifies this
      ensures Valid() && Outcome(ReadNum(s, old(Rest())), got, n)
    {
      hide ReadVarint, ReadFixed, FromWire;
      var w;
      n := 0;
      if WireOf(s) == FIXED32 {
        got, w := ReadFixedValue(4);
      } else if WireOf(s) == FIXED64 {
        got, w := ReadFixedValue(8);
      } else {
        got, w := ReadVarintValue();
      }
      if got {
        n := FromWire(s, w);
      }
    }
  }

  // ----- decode -----

  /** The emitted decode loop. */
  method DecodeMessage(s: Schema, m: Msg, r: Reader) returns (good: bool, result: Msg)
    requires r.Valid() && r.ok
    modifies r
    ensures r.Valid()
    ensures good ==> Decode(s, m, old(r.Rest())) == Some(result)
    ensures !good ==> Decode(s, m, old(r.Rest())) == None
    decreases |r.Rest()|, 1
  {
    hide ReadTag, Lookup, Skip, DecodeField, DefaultSlot;
    result := m;
    ghost var start := r.Rest();
    while true
      invariant r.Valid() && r.ok && |r.Rest()| <= |start|
      invariant Decode(s, result, r.Rest()) == Decode(s, m, start)
      decreases |r.Rest()|
    {
      var got, tag := r.ReadFieldTag();
      if !got {
        return r.ok, result;
      }
      match Lookup(s.fields, tag.number) {
        case None =>
          var skipped := r.SkipField(tag.wire);
          if !skipped {
            return false, result;
          }
        case Some(f) =>
          var cur := if f.number in result.slots then result.slots[f.number] else DefaultSlot(f);
          var read, slot := DecodeMember(f, cur, tag.wire, r);
          if !read {
            return false, result;
          }
          result := Msg(result.slots[f.number := slot]);
      }
    }
  }

  /** The emitted case of one field number. */
  method DecodeMember(f: Field, cur: Slot, wire: nat, r: Reader) returns (got: bool, slot: Slot)
    requires r.Valid() && r.ok
    modifies r
    ensures r.Valid()
    ensures got ==> r.ok && DecodeField(f, cur, wire, old(r.Rest())) == Got(slot, r.Rest())
    ensures !got ==> DecodeField(f, cur, wire, old(r.Rest())).Fail?
    decreases |r.Rest()|, 0
  {
    hide ReadBlob, ReadNum, Decode, ReadPacked, Default;
    slot := cur;
    match f.ftype
    case Nested(schema) =>
      var sub;
      got, sub := r.SubReader();
      if got {
        var m;
        got, m := DecodeMessage(schema, if !f.repeated && cur.Sub? then cur.m else Default(schema), sub);
        slot := if f.repeated then Subs(OldSubs(cur) + [m]) else Sub(true, m);
      }
    case Text =>
      var v;
      got, v := r.LengthDelimited();
      slot := if f.repeated then Strs(OldStrs(cur) + [v]) else Str(v);
    case Numeric(s) =>
      if f.repeated && wire == DELIMITED {
        var sub;
        got, sub := r.SubReader();
        if got {
          var ns;
          got, ns := DecodePacked(s, sub);
          slot := Nums(OldNums(cur) + ns);
        }
      } else {
        var n;
        got, n := r.ReadValue(s);
        slot := if f.repeated then Nums(OldNums(cur) + [n]) else Num(n);
      }
  }

  /** The inner loop over a packed region. */
  method DecodePacked(s: Scalar, r: Reader) returns (got: bool, ns: seq<int>)
    requires r.Valid() && r.ok
    modifies r
    ensures got ==> ReadPacked(s, old(r.Rest())) == Some(ns)
    ensures !got ==> ReadPacked(s, old(r.Rest())) == None
  {
    hide ReadNum;
    ns := [];
    ghost var start := r.Rest();
    PrependMore([], 0, ReadPacked(s, start));
    while r.ptr < r.end
      invariant r.Valid() && r.ok
      invariant ReadPacked(s, start) == Prepend(ns, ReadPacked(s, r.Rest()))
      decreases |r.Rest()|
    {
      var n;
      ghost var before := r.Rest();
      got, n := r.ReadValue(s);
      if !got {
        return;
      }
      PrependMore(ns, n, ReadPacked(s, r.Rest()));
      assert ReadPacked(s, before) == Prepend([n], ReadPacked(s, r.Rest()));
      ns := ns + [n];
    }
    assert r.Rest() == [] && ns + [] == ns;
    got := r.ok;
  }

  ghost function Prepend(ns: seq<int>, o: Option<seq<int>>): (r: Option<seq<int>>)
  {
    match o
    case None => None
    case Some(more) => Some(ns + more)
  }

  lemma PrependMore(ns: seq<int>, n: int, o: Option<seq<int>>)
    ensures Prepend(ns, Prepend([n], o)) == Prepend(ns + [n], o)
    ensures Prepend([], o) == o
  {
    if o.Some? {
      assert ns + ([n] + o.value) == ns + [n] + o.value;
      assert [] + o.value == o.value;
    }
  }

  /** A read whose value has the digits already consumed put back in front. */
  ghost function Prefixed(v: nat, shift: nat, r: Read<nat>): (q: Read<nat>)
  {
    match r
    case Fail => Fail
    case Got(w, rest) => Got(v + Pow2(shift) * w, rest)
  }

  lemma PrefixedZero(r: Read<nat>)
    ensures Prefixed(0, 0, r) == r
  {
  }

  lemma PrefixedFail(v: nat, shift: nat, r: Read<nat>)
    requires r.Fail?
    ensures Prefixed(v, shift, r).Fail?
  {
  }

  lemma Pow2Zero()
    ensures Pow2(0) == 1
  {
  }

  lemma NoDigits(b: seq<Byte>, budget: nat)
    requires b == [] || budget == 0
    ensures ReadDigits(b, budget).Fail?
  {
  }

  lemma OneDigit(b: seq<Byte>, budget: nat, v: nat, shift: nat)
    requires b != [] && budget > 0
    ensures b[0] < 0x80 ==> Prefixed(v, shift, ReadDigits(b, budget)) == Got(v + Pow2(shift) * b[0], b[1..])
    ensures b[0] >= 0x80 ==>
              Prefixed(v, shift, ReadDigits(b, budget))
              == Prefixed(v + Pow2(shift) * (b[0] % 0x80), shift + 7, ReadDigits(b[1..], budget - 1))
  {
    Pow2Add(shift, 7);
    assert Pow2(7) == 0x80;
    var r := ReadDigits(b[1..], budget - 1);
    if b[0] >= 0x80 && r.Got? {
      Spread(Pow2(shift), b[0] % 0x80, r.value);
    }
  }

  lemma Spread(p: nat, d: nat, w: nat)
    ensures p * (d + 0x80 * w) == p * d + (p * 0x80) * w
  {
  }

  lemma {:induction false} ShlValue(x: nat, k: nat)
    ensures Bits.Shl(x, k) == Pow2(k) * x
    decreases k
  {
    if k > 0 {
      ShlValue(2 * x, k - 1);
    }
  }

  /** The 64-bit disjunction is the sum modulo 2^64. */
  lemma DigitOr(v: nat, b: Byte, shift: nat)
    requires v < Pow2(shift) && shift < 64
    ensures Bits.Or(v, Bits.Shl(b % 0x80, shift) % TWO64) == (v + Pow2(shift) * (b % 0x80)) % TWO64
  {
    hide Bits.Or, Bits.Shl;
    var p, q, d := Pow2(shift), Pow2(64 - shift), b % 0x80;
    ShlValue(d, shift);
    Pow2Values();
    Pow2Add(shift, 64 - shift);
    ShiftResidue(0, d, p, q);
    ShiftResidue(v, d, p, q);
    Bits.OrDisjoint(v, d % q, shift);
  }

  /** Before the tenth byte nothing is shifted out; after it no digit may follow. */
  lemma Continues(full: nat, v: nat, shift: nat, rest: seq<Byte>, budget: nat)
    requires full < Pow2(shift + 7) && v == full % TWO64
    requires shift + 7 < 64 || budget == 0
    ensures v < Pow2(shift + 7)
    ensures Prefixed(full, shift + 7, ReadDigits(rest, budget)) == Prefixed(v, shift + 7, ReadDigits(rest, budget))
  {
    Pow2Values();
    if shift + 7 < 64 {
      Pow2Monotone(shift + 7, 64);
      DivModUnique(full, 0, full, TWO64);
    } else {
      NoDigits(rest, budget);
    }
    assert v <= full;
  }

  lemma DigitFits(v: nat, d: nat, shift: nat)
    requires v < Pow2(shift) && d < 0x80
    ensures v + Pow2(shift) * d < Pow2(shift + 7)
  {
    Pow2Add(shift, 7);
    assert Pow2(7) == 0x80;
    assert Pow2(shift) * (d + 1) <= Pow2(shift) * 0x80;
  }
}
