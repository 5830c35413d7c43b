/** Scalars on the wire, and calculate_size against the bytes written. */
module ProtoScalars {
  import opened Arith
  import opened Bytes
  import opened Options
  import opened Wire
  import opened Proto

  // ----- every scalar survives the wire -----

  lemma ScalarRoundTrip(s: Scalar, n: int)
    requires InRange(s, n)
    ensures FromWire(s, ToWire(s, n)) == n
    ensures ToWire(s, n) < TWO64
    ensures WireOf(s) == FIXED32 ==> ToWire(s, n) < TWO32
  {
    hide ZigzagEncode, ZigzagDecode;
    match s
    case Sint32 =>
      Zigzag32(n);
    case Sint64 =>
      Zigzag64(n);
    case Int32 | Sfixed32 | Enum =>
      Wrap32(n);
    case Int64 | Sfixed64 =>
      Wrap64(n);
    case Uint32 | Fixed32 | Float =>
      DivModUnique(n, 0, n, TWO32);
      DivModUnique(n, 0, n, TWO64);
    case Uint64 | Fixed64 | Double =>
      DivModUnique(n, 0, n, TWO64);
    case Bool =>
  }

  lemma Zigzag32(n: int)
    requires -0x8000_0000 <= n < 0x8000_0000
    ensures ZigzagEncode(n, 32) < TWO32 && ZigzagDecode(ZigzagEncode(n, 32) % TWO32, 32) == n
  {
    hide ZigzagEncode, ZigzagDecode;
    Pow2Values();
    assert Pow2(31) == 0x8000_0000 by { assert Pow2(32) == 2 * Pow2(31); }
    ZigzagRoundTrip(n, 32);
    DivModUnique(ZigzagEncode(n, 32), 0, ZigzagEncode(n, 32), TWO32);
  }

  lemma Zigzag64(n: int)
    requires -0x8000_0000_0000_0000 <= n < 0x8000_0000_0000_0000
    ensures ZigzagEncode(n, 64) < TWO64 && ZigzagDecode(ZigzagEncode(n, 64), 64) == n
  {
    hide ZigzagEncode, ZigzagDecode;
    Pow2Values();
    assert Pow2(63) == 0x8000_0000_0000_0000 by { assert Pow2(64) == 2 * Pow2(63); }
    ZigzagRoundTrip(n, 64);
  }

  /** A 32-bit value, sign-extended to 64 bits and cut back. */
  lemma Wrap32(n: int)
    requires -0x8000_0000 <= n < 0x8000_0000
    ensures Signed((n % TWO64) % TWO32, 0x8000_0000) == n && Signed((n % TWO32) % TWO32, 0x8000_0000) == n
    ensures n % TWO64 < TWO64 && n % TWO32 < TWO32
  {
    if n < 0 {
      DivModUnique(n, -1, n + TWO64, TWO64);
      DivModUnique(n, -1, n + TWO32, TWO32);
      DivModUnique(n + TWO64, 0xFFFF_FFFF, n + TWO32, TWO32);
      DivModUnique(n + TWO32, 0, n + TWO32, TWO32);
    } else {
      DivModUnique(n, 0, n, TWO64);
      DivModUnique(n, 0, n, TWO32);
    }
  }

  lemma Wrap64(n: int)
    requires -0x8000_0000_0000_0000 <= n < 0x8000_0000_0000_0000
    ensures Signed((n % TWO64) % TWO64, 0x8000_0000_0000_0000) == n
  {
    if n < 0 {
      DivModUnique(n, -1, n + TWO64, TWO64);
      DivModUnique(n + TWO64, 0, n + TWO64, TWO64);
    } else {
      DivModUnique(n, 0, n, TWO64);
    }
  }

  lemma NumRoundTrip(s: Scalar, n: int, tail: seq<Byte>)
    requires InRange(s, n)
    ensures ReadNum(s, WriteNum(s, n) + tail) == Got(n, tail)
  {
    hide FromWire, ToWire, ReadVarint, ReadFixed, Varint, LeBytes, InRange;
    ScalarRoundTrip(s, n);
    Widths();
    if WireOf(s) == FIXED32 {
      FixedRoundTrip(ToWire(s, n), 4, tail);
    } else if WireOf(s) == FIXED64 {
      FixedRoundTrip(ToWire(s, n), 8, tail);
    } else {
      VarintRoundTrip(ToWire(s, n), tail);
    }
  }

  lemma Widths()
    ensures Pow2(8 * 4) == TWO32 && Pow2(8 * 8) == TWO64
  {
    Pow2Values();
  }

  /** An element written is skipped whole by its wire type. */
  lemma NumSkipped(s: Scalar, n: int, tail: seq<Byte>)
    requires InRange(s, n)
    ensures Skip(WireOf(s), WriteNum(s, n) + tail) == Got((), tail)
  {
    hide FromWire, ToWire, ReadVarint, ReadFixed, Varint, LeBytes, InRange;
    ScalarRoundTrip(s, n);
    Widths();
    if WireOf(s) == FIXED32 {
      FixedRoundTrip(ToWire(s, n), 4, tail);
    } else if WireOf(s) == FIXED64 {
      FixedRoundTrip(ToWire(s, n), 8, tail);
    } else {
      VarintRoundTrip(ToWire(s, n), tail);
    }
  }

  lemma NumExtend(s: Scalar, b: seq<Byte>, tail: seq<Byte>)
    requires ReadNum(s, b).Got?
    ensures ReadNum(s, b + tail) == Got(ReadNum(s, b).value, ReadNum(s, b).rest + tail)
  {
    hide FromWire, ReadVarint, ReadFixed;
    if WireOf(s) == FIXED32 {
      FixedExtend(b, 4, tail);
    } else if WireOf(s) == FIXED64 {
      FixedExtend(b, 8, tail);
    } else {
      VarintExtend(b, tail);
    }
  }

  ghost predicate AllInRange(s: Scalar, ns: seq<int>)
  {
    forall i :: 0 <= i < |ns| ==> InRange(s, ns[i])
  }

  lemma {:induction false} PackedRoundTrip(s: Scalar, ns: seq<int>)
    requires AllInRange(s, ns)
    ensures ReadPacked(s, WriteNums(s, ns)) == Some(ns)
  {
    hide ReadNum, WriteNum, InRange;
    if ns != [] {
      NumRoundTrip(s, ns[0], WriteNums(s, ns[1..]));
      PackedRoundTrip(s, ns[1..]);
      assert ReadNum(s, WriteNums(s, ns)) == Got(ns[0], WriteNums(s, ns[1..]));
      assert WriteNums(s, ns) != [];
      assert [ns[0]] + ns[1..] == ns;
    }
  }

  // ----- calculate_size is the number of bytes encode writes -----

  lemma NumLength(s: Scalar, n: int)
    ensures |WriteNum(s, n)| == NumSize(s, n)
  {
    hide ToWire;
    VarintLength(ToWire(s, n));
  }

  lemma {:induction false} PackedLength(s: Scalar, ns: seq<int>)
    ensures |WriteNums(s, ns)| == PackedSize(s, ns)
  {
    hide WriteNum, NumSize;
    if ns != [] {
      NumLength(s, ns[0]);
      PackedLength(s, ns[1..]);
      NumSizeCases(s, ns[0]);
      assert |WriteNums(s, ns)| == NumSize(s, ns[0]) + PackedSize(s, ns[1..]);
      assert VarintSizes(s, ns) == VarintSize(ToWire(s, ns[0])) + VarintSizes(s, ns[1..]);
    }
  }

  lemma NumSizeCases(s: Scalar, n: int)
    ensures NumSize(s, n) == if WireOf(s) == FIXED32 then 4 else if WireOf(s) == FIXED64 then 8 else VarintSize(ToWire(s, n))
  {
  }

  lemma {:induction false} UnpackedLength(number: nat, s: Scalar, ns: seq<int>)
    ensures |EncodeUnpacked(number, s, ns)| == SizeUnpacked(number, s, ns)
  {
    hide WriteNum, NumSize, WriteTag, TagSize;
    if ns != [] {
      NumLength(s, ns[0]);
      TagLength(number, WireOf(s));
      UnpackedLength(number, s, ns[1..]);
    }
  }

  lemma {:induction false} TextsLength(number: nat, bs: seq<seq<Byte>>)
    ensures |EncodeTexts(number, bs)| == SizeTexts(number, bs)
  {
    hide WriteTag, TagSize, Varint, VarintSize;
    if bs != [] {
      VarintLength(|bs[0]|);
      TagLength(number, DELIMITED);
      TextsLength(number, bs[1..]);
    }
  }

  /** calculate_size() is exact, at every nesting level, for every message. */
  lemma {:induction false} EncodedSize(s: Schema, m: Msg)
    ensures |Encode(s, m)| == Size(s, m)
    decreases s, 1
  {
    FieldsSize(s.fields, m);
  }

  lemma {:induction false} FieldsSize(fs: seq<Field>, m: Msg)
    ensures |EncodeFields(fs, m)| == SizeFields(fs, m)
    decreases fs, 0
  {
    hide EncodeField, SizeField;
    if fs != [] {
      if fs[0].number in m.slots {
        FieldSize(fs[0], m.slots[fs[0].number]);
      }
      FieldsSize(fs[1..], m);
    }
  }

  lemma {:induction false} FieldSize(f: Field, slot: Slot)
    ensures |EncodeField(f, slot)| == SizeField(f, slot)
    decreases f, 2
  {
    hide WriteNum, NumSize, WriteTag, TagSize, Varint, VarintSize, PackedSize, WriteNums;
    match f.ftype
    case Numeric(s) =>
      TagLength(f.number, WireOf(s));
      TagLength(f.number, DELIMITED);
      match slot {
        case Num(n) => NumLength(s, n);
        case Nums(ns) =>
          PackedLength(s, ns);
          VarintLength(PackedSize(s, ns));
          UnpackedLength(f.number, s, ns);
        case _ =>
      }
    case Text =>
      TagLength(f.number, DELIMITED);
      match slot {
        case Str(b) => VarintLength(|b|);
        case Strs(bs) => TextsLength(f.number, bs);
        case _ =>
      }
    case Nested(sub) =>
      match slot {
        case Sub(has, m) => NestedSize(f, m);
        case Subs(ms) => NestedAllSize(f, ms);
        case _ =>
      }
  }

  lemma {:induction false} NestedSize(f: Field, m: Msg)
    requires f.ftype.Nested?
    ensures |EncodeNested(f, m)| == SizeNested(f, m)
    decreases f, 0
  {
    hide WriteTag, TagSize, Varint, VarintSize;
    EncodedSize(f.ftype.schema, m);
    VarintLength(Size(f.ftype.schema, m));
    TagLength(f.number, DELIMITED);
  }

  lemma {:induction false} NestedAllSize(f: Field, ms: seq<Msg>)
    requires f.ftype.Nested?
    ensures |EncodeNestedAll(f, ms)| == SizeNestedAll(f, ms)
    decreases f, 1, |ms|
  {
    hide EncodeNested, SizeNested;
    if ms != [] {
      NestedSize(f, ms[0]);
      NestedAllSize(f, ms[1..]);
    }
  }
}
