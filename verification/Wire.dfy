/** The proto3 wire format: varints, zigzag, fixed-width and length-delimited values. */
module Wire {
  import opened Arith
  import opened Bytes
  import Bits

  /** What a read leaves: nothing, or a value and the unread bytes. */
  datatype Read<+T> = Fail | Got(value: T, rest: seq<Byte>)

  const TWO64: nat := 0x1_0000_0000_0000_0000
  const TWO32: nat := 0x1_0000_0000

  // ----- varints -----

  function Varint(v: nat): (b: seq<Byte>)
    ensures |b| >= 1
  {
    if v < 0x80 then [v] else [v % 0x80 + 0x80] + Varint(v / 0x80)
  }

  function VarintSize(v: nat): (n: nat)
  {
    if v < 0x80 then 1 else 1 + VarintSize(v / 0x80)
  }

  /** The number written in at most `budget` base-128 digits, without the 64-bit cut. */
  function ReadDigits(s: seq<Byte>, budget: nat): (r: Read<nat>)
    ensures r.Got? ==> |r.rest| < |s|
    decreases |s|
  {
    if budget == 0 || s == [] then Fail
    else if s[0] < 0x80 then Got(s[0], s[1..])
    else match ReadDigits(s[1..], budget - 1)
         case Fail => Fail
         case Got(v, rest) => Got(s[0] as int % 0x80 + 0x80 * v, rest)
  }

  /** A varint of at most ten bytes; bits above the 64th are shifted out. */
  function ReadVarint(s: seq<Byte>): (r: Read<nat>)
    ensures r.Got? ==> |r.rest| < |s| && r.value < TWO64
  {
    match ReadDigits(s, 10)
    case Fail => Fail
    case Got(v, rest) => Got(v % TWO64, rest)
  }

  lemma {:induction false} VarintLength(v: nat)
    ensures |Varint(v)| == VarintSize(v)
  {
    if v >= 0x80 {
      VarintLength(v / 0x80);
    }
  }

  lemma {:induction false} DigitsRoundTrip(v: nat, budget: nat, tail: seq<Byte>)
    requires VarintSize(v) <= budget
    ensures ReadDigits(Varint(v) + tail, budget) == Got(v, tail)
  {
    var s := Varint(v) + tail;
    if v < 0x80 {
      assert s[1..] == tail;
    } else {
      DigitsRoundTrip(v / 0x80, budget - 1, tail);
      assert s[1..] == Varint(v / 0x80) + tail;
    }
  }

  lemma {:induction false} SizeBound(v: nat, n: nat)
    requires v < Pow2(7 * n) && n > 0
    ensures VarintSize(v) <= n
  {
    if v >= 0x80 {
      assert Pow2(7) == 0x80;
      assert n > 1;
      Pow2Add(7, 7 * (n - 1));
      assert 7 + 7 * (n - 1) == 7 * n;
      SizeBound(v / 0x80, n - 1);
    }
  }

  lemma FitsTenDigits(v: nat)
    requires v < TWO64
    ensures v < Pow2(7 * 10)
  {
    hide Pow2;
    Pow2Values();
    Pow2Monotone(64, 70);
  }

  lemma VarintRoundTrip(v: nat, tail: seq<Byte>)
    requires v < TWO64
    ensures ReadVarint(Varint(v) + tail) == Got(v, tail)
  {
    hide Varint, VarintSize, ReadDigits;
    FitsTenDigits(v);
    SizeBound(v, 10);
    DigitsRoundTrip(v, 10, tail);
  }

  /** A successful read does not look past what it consumes. */
  lemma {:induction false} DigitsExtend(s: seq<Byte>, budget: nat, tail: seq<Byte>)
    requires ReadDigits(s, budget).Got?
    ensures ReadDigits(s + tail, budget) == Got(ReadDigits(s, budget).value, ReadDigits(s, budget).rest + tail)
    decreases |s|
  {
    assert (s + tail)[1..] == s[1..] + tail;
    if s[0] >= 0x80 {
      DigitsExtend(s[1..], budget - 1, tail);
    }
  }

  lemma VarintExtend(s: seq<Byte>, tail: seq<Byte>)
    requires ReadVarint(s).Got?
    ensures ReadVarint(s + tail) == Got(ReadVarint(s).value, ReadVarint(s).rest + tail)
  {
    DigitsExtend(s, 10, tail);
  }

  // ----- zigzag -----

  /** (v << 1) ^ (v >> (k-1)) on k-bit words; the right shift copies the sign. */
  function ZigzagEncode(v: int, k: nat): (w: nat)
    requires k > 0
  {
    Bits.Xor((2 * v) % Pow2(k), if v < 0 then Pow2(k) - 1 else 0)
  }

  /** (w >> 1) ^ (~(w & 1) + 1), read as signed. */
  function ZigzagDecode(w: nat, k: nat): (v: int)
    requires k > 0
  {
    Signed(Bits.Xor(w / 2, if w % 2 == 1 then Pow2(k) - 1 else 0), Pow2(k - 1))
  }

  lemma ZigzagValue(v: int, k: nat)
    requires k > 0 && 0 - Pow2(k - 1) <= v < Pow2(k - 1)
    ensures ZigzagEncode(v, k) == if v < 0 then -2 * v - 1 else 2 * v
  {
    var p := Pow2(k - 1);
    if v < 0 {
      DivModUnique(2 * v, -1, 2 * v + 2 * p, 2 * p);
      Bits.XorOnes(2 * v + 2 * p, k);
    } else {
      DivModUnique(2 * v, 0, 2 * v, 2 * p);
      Bits.XorZero(2 * v);
    }
  }

  lemma ZigzagRoundTrip(v: int, k: nat)
    requires k > 0 && 0 - Pow2(k - 1) <= v < Pow2(k - 1)
    ensures ZigzagEncode(v, k) < Pow2(k)
    ensures ZigzagDecode(ZigzagEncode(v, k), k) == v
  {
    hide Bits.Xor;
    ZigzagValue(v, k);
    var w := ZigzagEncode(v, k);
    if v < 0 {
      assert w / 2 == -v - 1 && w % 2 == 1;
      Bits.XorOnes(-v - 1, k);
    } else {
      assert w / 2 == v && w % 2 == 0;
      Bits.XorZero(v);
    }
  }

  // ----- fixed width and length-delimited -----

  function ReadFixed(s: seq<Byte>, n: nat): (r: Read<nat>)
    ensures r.Got? ==> |r.rest| == |s| - n
  {
    if |s| < n then Fail
    else
      LeValNonNegative(s[..n]);
      Got(LeVal(s[..n]), s[n..])
  }

  function ReadBlob(s: seq<Byte>): (r: Read<seq<Byte>>)
    ensures r.Got? ==> |r.value| + |r.rest| < |s|
  {
    match ReadVarint(s)
    case Fail => Fail
    case Got(len, rest) => if |rest| < len then Fail else Got(rest[..len], rest[len..])
  }

  function Blob(b: seq<Byte>): (s: seq<Byte>)
    ensures |s| >= 1
  {
    Varint(|b|) + b
  }

  lemma BlobRoundTrip(b: seq<Byte>, tail: seq<Byte>)
    requires |b| < TWO64
    ensures ReadBlob(Blob(b) + tail) == Got(b, tail)
  {
    hide ReadVarint, Varint;
    assert Blob(b) + tail == Varint(|b|) + (b + tail);
    VarintRoundTrip(|b|, b + tail);
    assert (b + tail)[..|b|] == b && (b + tail)[|b|..] == tail;
  }

  lemma BlobExtend(s: seq<Byte>, tail: seq<Byte>)
    requires ReadBlob(s).Got?
    ensures ReadBlob(s + tail) == Got(ReadBlob(s).value, ReadBlob(s).rest + tail)
  {
    hide ReadVarint;
    VarintExtend(s, tail);
    var r := ReadVarint(s);
    assert (r.rest + tail)[..r.value] == r.rest[..r.value];
    assert (r.rest + tail)[r.value..] == r.rest[r.value..] + tail;
  }

  lemma FixedRoundTrip(v: nat, n: nat, tail: seq<Byte>)
    requires v < Pow2(8 * n)
    ensures ReadFixed(LeBytes(v, n) + tail, n) == Got(v, tail)
  {
    var s := LeBytes(v, n) + tail;
    assert s[..n] == LeBytes(v, n) && s[n..] == tail;
    LeValOfBytes(v, n);
  }

  lemma FixedExtend(s: seq<Byte>, n: nat, tail: seq<Byte>)
    requires ReadFixed(s, n).Got?
    ensures ReadFixed(s + tail, n) == Got(ReadFixed(s, n).value, ReadFixed(s, n).rest + tail)
  {
    assert (s + tail)[..n] == s[..n] && (s + tail)[n..] == s[n..] + tail;
  }

  // ----- tags -----

  datatype Tag = Tag(number: nat, wire: nat)

  const VARINT: nat := 0
  const FIXED64: nat := 1
  const DELIMITED: nat := 2
  const FIXED32: nat := 5

  function WriteTag(number: nat, wire: nat): (b: seq<Byte>)
    ensures |b| >= 1
  {
    Varint(8 * number + wire)
  }

  function TagSize(number: nat): (n: nat)
  {
    VarintSize(8 * number)
  }

  /** The field number is cut to 32 bits, the wire type is the low three bits. */
  function ReadTag(s: seq<Byte>): (r: Read<Tag>)
    ensures r.Got? ==> |r.rest| < |s| && r.value.wire < 8
  {
    match ReadVarint(s)
    case Fail => Fail
    case Got(key, rest) => Got(Tag((key / 8) % TWO32, key % 8), rest)
  }

  lemma TagRoundTrip(number: nat, wire: nat, tail: seq<Byte>)
    requires number < TWO32 && wire < 8
    ensures ReadTag(WriteTag(number, wire) + tail) == Got(Tag(number, wire), tail)
  {
    hide ReadVarint, Varint;
    VarintRoundTrip(8 * number + wire, tail);
  }

  lemma TagExtend(s: seq<Byte>, tail: seq<Byte>)
    requires ReadTag(s).Got?
    ensures ReadTag(s + tail) == Got(ReadTag(s).value, ReadTag(s).rest + tail)
  {
    hide ReadVarint;
    VarintExtend(s, tail);
  }

  /** The wire type only fills the low three bits, so it never changes the length. */
  lemma {:induction false} TagLength(number: nat, wire: nat)
    requires wire < 8
    ensures |WriteTag(number, wire)| == TagSize(number)
  {
    VarintLength(8 * number + wire);
    if 8 * number >= 0x80 {
      assert (8 * number + wire) / 0x80 == (8 * number) / 0x80;
    }
  }

  // ----- skipping -----

  function Skip(wire: nat, s: seq<Byte>): (r: Read<()>)
    ensures r.Got? ==> |r.rest| <= |s|
  {
    if wire == VARINT then Drop(ReadVarint(s))
    else if wire == FIXED64 then Drop(ReadFixed(s, 8))
    else if wire == FIXED32 then Drop(ReadFixed(s, 4))
    else if wire == DELIMITED then Drop(ReadBlob(s))
    else Fail
  }

  function Drop<T>(r: Read<T>): (u: Read<()>)
    ensures u.Got? <==> r.Got?
    ensures u.Got? ==> u.rest == r.rest
  {
    match r
    case Fail => Fail
    case Got(_, rest) => Got((), rest)
  }

  lemma SkipExtend(wire: nat, s: seq<Byte>, tail: seq<Byte>)
    requires Skip(wire, s).Got?
    ensures Skip(wire, s + tail) == Got((), Skip(wire, s).rest + tail)
  {
    hide ReadVarint, ReadFixed, ReadBlob;
    if wire == VARINT {
      VarintExtend(s, tail);
    } else if wire == FIXED64 {
      FixedExtend(s, 8, tail);
    } else if wire == FIXED32 {
      FixedExtend(s, 4, tail);
    } else {
      BlobExtend(s, tail);
    }
  }
}
