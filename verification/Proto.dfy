/** The generated message classes as an interpreter over schemas: what the emitted
    encode, calculate_size and decode do for every field category. */
module Proto {
  import opened Arith
  import opened Bytes
  import opened Options
  import opened Wire

  datatype Scalar =
    | Double | Float
    | Int32 | Int64 | Uint32 | Uint64 | Sint32 | Sint64
    | Fixed32 | Fixed64 | Sfixed32 | Sfixed64
    | Bool | Enum

  /** String and bytes members are emitted alike; both are Text here. */
  datatype FieldType = Numeric(scalar: Scalar) | Text | Nested(schema: Schema)

  datatype Field = Field(number: nat, ftype: FieldType, repeated: bool, packedOption: Option<bool>)

  /** Fields in ascending order of their numbers. */
  datatype Schema = Schema(fields: seq<Field>)

  /** A member of a message object. A float or double is represented by its bit pattern. */
  datatype Slot =
    | Num(n: int)
    | Str(b: seq<Byte>)
    | Sub(has: bool, m: Msg)
    | Nums(ns: seq<int>)
    | Strs(bs: seq<seq<Byte>>)
    | Subs(ms: seq<Msg>)

  datatype Msg = Msg(slots: map<nat, Slot>)

  // ----- schemas -----

  predicate IsPacked(f: Field)
  {
    f.repeated && f.ftype.Numeric? && (f.packedOption.Some? ==> f.packedOption.value)
  }

  ghost predicate WellFormed(s: Schema)
  {
    && (forall i :: 0 <= i < |s.fields| ==> s.fields[i].number < 0x8000_0000)
    && (forall i, j :: 0 <= i < j < |s.fields| ==> s.fields[i].number < s.fields[j].number)
    && forall f :: f in s.fields && f.ftype.Nested? ==> WellFormed(f.ftype.schema)
  }

  function Lookup(fs: seq<Field>, number: nat): (r: Option<Field>)
    ensures r.Some? ==> r.value in fs && r.value.number == number
    ensures r.None? ==> forall i :: 0 <= i < |fs| ==> fs[i].number != number
  {
    if fs == [] then None else if fs[0].number == number then Some(fs[0]) else Lookup(fs[1..], number)
  }

  ghost function Numbers(fs: seq<Field>): (ns: set<nat>)
  {
    set i | 0 <= i < |fs| :: fs[i].number
  }

  // ----- scalars on the wire -----

  function WireOf(s: Scalar): (w: nat)
    ensures w < 8
  {
    match s
    case Double | Fixed64 | Sfixed64 => FIXED64
    case Float | Fixed32 | Sfixed32 => FIXED32
    case _ => VARINT
  }

  predicate InRange(s: Scalar, n: int)
  {
    match s
    case Int32 | Sint32 | Sfixed32 | Enum => -0x8000_0000 <= n < 0x8000_0000
    case Int64 | Sint64 | Sfixed64 => -0x8000_0000_0000_0000 <= n < 0x8000_0000_0000_0000
    case Uint32 | Fixed32 | Float => 0 <= n < 0x1_0000_0000
    case Uint64 | Fixed64 | Double => 0 <= n < 0x1_0000_0000_0000_0000
    case Bool => n == 0 || n == 1
  }

  /** The unsigned value written for n. */
  function ToWire(s: Scalar, n: int): (w: nat)
  {
    match s
    case Sint32 => ZigzagEncode(n, 32)
    case Sint64 => ZigzagEncode(n, 64)
    case Sfixed32 => n % TWO32
    case Bool => if n != 0 then 1 else 0
    case Fixed32 | Float => n % TWO32
    case _ => n % TWO64
  }

  /** The member value stored for a decoded word. */
  function FromWire(s: Scalar, w: nat): (n: int)
  {
    match s
    case Uint32 | Fixed32 => w % TWO32
    case Int32 | Sfixed32 | Enum => Signed(w % TWO32, 0x8000_0000)
    case Int64 | Sfixed64 => Signed(w % TWO64, 0x8000_0000_0000_0000)
    case Bool => if w != 0 then 1 else 0
    case Sint32 => ZigzagDecode(w % TWO32, 32)
    case Sint64 => ZigzagDecode(w, 64)
    case _ => w
  }

  function WriteNum(s: Scalar, n: int): (b: seq<Byte>)
  {
    if WireOf(s) == FIXED32 then LeBytes(ToWire(s, n), 4)
    else if WireOf(s) == FIXED64 then LeBytes(ToWire(s, n), 8)
    else Varint(ToWire(s, n))
  }

  function NumSize(s: Scalar, n: int): (k: nat)
  {
    if WireOf(s) == FIXED32 then 4
    else if WireOf(s) == FIXED64 then 8
    else VarintSize(ToWire(s, n))
  }

  function ReadNum(s: Scalar, b: seq<Byte>): (r: Read<int>)
    ensures r.Got? ==> |r.rest| < |b|
  {
    var raw := if WireOf(s) == FIXED32 then ReadFixed(b, 4) else if WireOf(s) == FIXED64 then ReadFixed(b, 8) else ReadVarint(b);
    match raw
    case Fail => Fail
    case Got(w, rest) => Got(FromWire(s, w), rest)
  }

  /** The emitted test `member != 0`; a float or double compares equal to zero with either sign bit. */
  predicate NonDefault(s: Scalar, n: int)
  {
    match s
    case Float => n != 0 && n != 0x8000_0000
    case Double => n != 0 && n != 0x8000_0000_0000_0000
    case _ => n != 0
  }

  // ----- encode -----

  function Encode(s: Schema, m: Msg): (b: seq<Byte>)
    decreases s, 1
  {
    EncodeFields(s.fields, m)
  }

  function EncodeFields(fs: seq<Field>, m: Msg): (b: seq<Byte>)
    decreases fs, 0
  {
    if fs == [] then []
    else (if fs[0].number in m.slots then EncodeField(fs[0], m.slots[fs[0].number]) else []) + EncodeFields(fs[1..], m)
  }

  function EncodeField(f: Field, slot: Slot): (b: seq<Byte>)
    decreases f, 2
  {
    match f.ftype
    case Numeric(s) =>
      (match slot
       case Num(n) => if !f.repeated && NonDefault(s, n) then WriteTag(f.number, WireOf(s)) + WriteNum(s, n) else []
       case Nums(ns) =>
         if IsPacked(f) then
           if ns == [] then [] else WriteTag(f.number, DELIMITED) + Varint(PackedSize(s, ns)) + WriteNums(s, ns)
         else EncodeUnpacked(f.number, s, ns)
       case _ => [])
    case Text =>
      (match slot
       case Str(b) => if b != [] then WriteTag(f.number, DELIMITED) + Blob(b) else []
       case Strs(bs) => EncodeTexts(f.number, bs)
       case _ => [])
    case Nested(sub) =>
      (match slot
       case Sub(has, m) => if has then EncodeNested(f, m) else []
       case Subs(ms) => EncodeNestedAll(f, ms)
       case _ => [])
  }

  /** Tag, calculate_size() of the member, then its own encoding. */
  function EncodeNested(f: Field, m: Msg): (b: seq<Byte>)
    requires f.ftype.Nested?
    decreases f, 0
  {
    WriteTag(f.number, DELIMITED) + Varint(Size(f.ftype.schema, m)) + Encode(f.ftype.schema, m)
  }

  function EncodeNestedAll(f: Field, ms: seq<Msg>): (b: seq<Byte>)
    requires f.ftype.Nested?
    decreases f, 1, |ms|
  {
    if ms == [] then [] else EncodeNested(f, ms[0]) + EncodeNestedAll(f, ms[1..])
  }

  function EncodeTexts(number: nat, bs: seq<seq<Byte>>): (b: seq<Byte>)
  {
    if bs == [] then [] else WriteTag(number, DELIMITED) + Blob(bs[0]) + EncodeTexts(number, bs[1..])
  }

  function EncodeUnpacked(number: nat, s: Scalar, ns: seq<int>): (b: seq<Byte>)
  {
    if ns == [] then [] else WriteTag(number, WireOf(s)) + WriteNum(s, ns[0]) + EncodeUnpacked(number, s, ns[1..])
  }

  function WriteNums(s: Scalar, ns: seq<int>): (b: seq<Byte>)
  {
    if ns == [] then [] else WriteNum(s, ns[0]) + WriteNums(s, ns[1..])
  }

  // ----- calculate_size -----

  function Size(s: Schema, m: Msg): (n: nat)
    decreases s, 1
  {
    SizeFields(s.fields, m)
  }

  function SizeFields(fs: seq<Field>, m: Msg): (n: nat)
    decreases fs, 0
  {
    if fs == [] then 0
    else (if fs[0].number in m.slots then SizeField(fs[0], m.slots[fs[0].number]) else 0) + SizeFields(fs[1..], m)
  }

  function SizeField(f: Field, slot: Slot): (n: nat)
    decreases f, 2
  {
    match f.ftype
    case Numeric(s) =>
      (match slot
       case Num(n) => if !f.repeated && NonDefault(s, n) then TagSize(f.number) + NumSize(s, n) else 0
       case Nums(ns) =>
         if IsPacked(f) then
           if ns == [] then 0 else TagSize(f.number) + VarintSize(PackedSize(s, ns)) + PackedSize(s, ns)
         else SizeUnpacked(f.number, s, ns)
       case _ => 0)
    case Text =>
      (match slot
       case Str(b) => if b != [] then TagSize(f.number) + VarintSize(|b|) + |b| else 0
       case Strs(bs) => SizeTexts(f.number, bs)
       case _ => 0)
    case Nested(sub) =>
      (match slot
       case Sub(has, m) => if has then SizeNested(f, m) else 0
       case Subs(ms) => SizeNestedAll(f, ms)
       case _ => 0)
  }

  function SizeNested(f: Field, m: Msg): (n: nat)
    requires f.ftype.Nested?
    decreases f, 0
  {
    var s := Size(f.ftype.schema, m);
    TagSize(f.number) + VarintSize(s) + s
  }

  function SizeNestedAll(f: Field, ms: seq<Msg>): (n: nat)
    requires f.ftype.Nested?
    decreases f, 1, |ms|
  {
    if ms == [] then 0 else SizeNested(f, ms[0]) + SizeNestedAll(f, ms[1..])
  }

  function SizeTexts(number: nat, bs: seq<seq<Byte>>): (n: nat)
  {
    if bs == [] then 0 else TagSize(number) + VarintSize(|bs[0]|) + |bs[0]| + SizeTexts(number, bs[1..])
  }

  function SizeUnpacked(number: nat, s: Scalar, ns: seq<int>): (n: nat)
  {
    if ns == [] then 0 else TagSize(number) + NumSize(s, ns[0]) + SizeUnpacked(number, s, ns[1..])
  }

  /** Four or eight bytes per element for the fixed widths, the varint lengths otherwise. */
  function PackedSize(s: Scalar, ns: seq<int>): (n: nat)
  {
    if WireOf(s) == FIXED32 then 4 * |ns| else if WireOf(s) == FIXED64 then 8 * |ns| else VarintSizes(s, ns)
  }

  function VarintSizes(s: Scalar, ns: seq<int>): (n: nat)
  {
    if ns == [] then 0 else VarintSize(ToWire(s, ns[0])) + VarintSizes(s, ns[1..])
  }

  // ----- decode -----

  /** The members of a freshly constructed object. */
  function Default(s: Schema): (m: Msg)
    decreases s, 1
  {
    Msg(DefaultFields(s.fields))
  }

  function DefaultFields(fs: seq<Field>): (m: map<nat, Slot>)
    decreases fs, 0
  {
    if fs == [] then map[] else DefaultFields(fs[1..])[fs[0].number := DefaultSlot(fs[0])]
  }

  function DefaultSlot(f: Field): (s: Slot)
    decreases f, 0
  {
    match f.ftype
    case Numeric(_) => if f.repeated then Nums([]) else Num(0)
    case Text => if f.repeated then Strs([]) else Str([])
    case Nested(sub) => if f.repeated then Subs([]) else Sub(false, Default(sub))
  }

  /** The decode loop: tags until the input is used up; unknown numbers are skipped. */
  function Decode(s: Schema, m: Msg, b: seq<Byte>): (r: Option<Msg>)
    decreases |b|
  {
    if b == [] then Some(m)
    else match ReadTag(b)
         case Fail => None
         case Got(tag, rest) => DecodeTagged(s, m, tag, rest)
  }

  function DecodeTagged(s: Schema, m: Msg, tag: Tag, rest: seq<Byte>): (r: Option<Msg>)
    decreases |rest|, 1
  {
    match Lookup(s.fields, tag.number)
    case None =>
      (match Skip(tag.wire, rest)
       case Fail => None
       case Got(_, rest') => Decode(s, m, rest'))
    case Some(f) =>
      var cur := if f.number in m.slots then m.slots[f.number] else DefaultSlot(f);
      (match DecodeField(f, cur, tag.wire, rest)
       case Fail => None
       case Got(slot, rest') => Decode(s, Msg(m.slots[f.number := slot]), rest'))
  }

  function DecodeField(f: Field, cur: Slot, wire: nat, b: seq<Byte>): (r: Read<Slot>)
    ensures r.Got? ==> |r.rest| < |b|
    decreases |b|, 0
  {
    match f.ftype
    case Nested(sub) =>
      (match ReadBlob(b)
       case Fail => Fail
       case Got(inner, rest) =>
         var target := if !f.repeated && cur.Sub? then cur.m else Default(sub);
         (match Decode(sub, target, inner)
          case None => Fail
          case Some(m) => Got(if f.repeated then Subs(OldSubs(cur) + [m]) else Sub(true, m), rest)))
    case Text =>
      (match ReadBlob(b)
       case Fail => Fail
       case Got(v, rest) => Got(if f.repeated then Strs(OldStrs(cur) + [v]) else Str(v), rest))
    case Numeric(s) =>
      if f.repeated && wire == DELIMITED then
        match ReadBlob(b)
        case Fail => Fail
        case Got(inner, rest) =>
          (match ReadPacked(s, inner)
           case None => Fail
           case Some(ns) => Got(Nums(OldNums(cur) + ns), rest))
      else
        match ReadNum(s, b)
        case Fail => Fail
        case Got(n, rest) => Got(if f.repeated then Nums(OldNums(cur) + [n]) else Num(n), rest)
  }

  function ReadPacked(s: Scalar, b: seq<Byte>): (r: Option<seq<int>>)
    decreases |b|
  {
    if b == [] then Some([])
    else match ReadNum(s, b)
         case Fail => None
         case Got(n, rest) =>
           (match ReadPacked(s, rest)
            case None => None
            case Some(ns) => Some([n] + ns))
  }

  function OldNums(c: Slot): (ns: seq<int>) { if c.Nums? then c.ns else [] }
  function OldStrs(c: Slot): (bs: seq<seq<Byte>>) { if c.Strs? then c.bs else [] }
  function OldSubs(c: Slot): (ms: seq<Msg>) { if c.Subs? then c.ms else [] }
}
