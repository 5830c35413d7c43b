/** Decoding an encoding: the round trip, the merge law and forward compatibility. */
module ProtoRoundTrip {
  import opened Arith
  import opened Options
  import opened Wire
  import opened Proto
  import opened ProtoScalars
  import opened ProtoMerge

  // ----- one record -----

  /** A record the reader knows updates its member. */
  lemma KnownRecord(t: Schema, base: Msg, g: Field, wire: nat, payload: seq<Byte>, slot: Slot)
    requires Lookup(t.fields, g.number) == Some(g) && g.number in base.slots
    requires g.number < 0x8000_0000 && wire < 8
    requires DecodeField(g, base.slots[g.number], wire, payload) == Got(slot, [])
    ensures Decode(t, base, WriteTag(g.number, wire) + payload) == Some(Msg(base.slots[g.number := slot]))
  {
    hide ReadTag, WriteTag, DecodeField, Lookup;
    TagRoundTrip(g.number, wire, payload);
    assert WriteTag(g.number, wire) + payload != [];
    assert Decode(t, Msg(base.slots[g.number := slot]), []) == Some(Msg(base.slots[g.number := slot]));
  }

  /** A record the reader does not know leaves the message alone. */
  lemma UnknownRecord(t: Schema, base: Msg, number: nat, wire: nat, payload: seq<Byte>)
    requires Lookup(t.fields, number).None? && number < 0x8000_0000 && wire < 8
    requires Skip(wire, payload) == Got((), [])
    ensures Decode(t, base, WriteTag(number, wire) + payload) == Some(base)
  {
    hide ReadTag, WriteTag, Lookup, Skip;
    TagRoundTrip(number, wire, payload);
    assert WriteTag(number, wire) + payload != [];
    assert Decode(t, base, []) == Some(base);
  }

  // ----- fields the reader has dropped -----

  lemma {:induction false} UnknownUnpacked(t: Schema, base: Msg, number: nat, s: Scalar, ns: seq<int>)
    requires Lookup(t.fields, number).None? && number < 0x8000_0000 && AllInRange(s, ns)
    ensures Decode(t, base, EncodeUnpacked(number, s, ns)) == Some(base)
  {
    hide WriteTag, WriteNum, Lookup, Skip, InRange, Decode;
    if ns == [] {
      NothingToDo(t, base);
    } else {
      var head := WriteTag(number, WireOf(s)) + WriteNum(s, ns[0]);
      NumSkipped(s, ns[0], []);
      assert WriteNum(s, ns[0]) + [] == WriteNum(s, ns[0]);
      UnknownRecord(t, base, number, WireOf(s), WriteNum(s, ns[0]));
      UnknownUnpacked(t, base, number, s, ns[1..]);
      DecodeAppend(t, base, head, EncodeUnpacked(number, s, ns[1..]));
    }
  }

  lemma NothingToDo(t: Schema, base: Msg)
    ensures Decode(t, base, []) == Some(base)
  {
  }

  lemma UnknownBlob(t: Schema, base: Msg, number: nat, b: seq<Byte>)
    requires Lookup(t.fields, number).None? && number < 0x8000_0000 && |b| < TWO64
    ensures Decode(t, base, WriteTag(number, DELIMITED) + Blob(b)) == Some(base)
  {
    hide WriteTag, Lookup, Blob, ReadBlob, Decode;
    BlobRoundTrip(b, []);
    assert Blob(b) + [] == Blob(b);
    UnknownRecord(t, base, number, DELIMITED, Blob(b));
  }

  lemma {:induction false} UnknownTexts(t: Schema, base: Msg, number: nat, bs: seq<seq<Byte>>)
    requires Lookup(t.fields, number).None? && number < 0x8000_0000 && SizeTexts(number, bs) < TWO64
    ensures Decode(t, base, EncodeTexts(number, bs)) == Some(base)
  {
    hide WriteTag, Lookup, Blob, Decode, TagSize, VarintSize;
    if bs == [] {
      NothingToDo(t, base);
    } else {
      UnknownBlob(t, base, number, bs[0]);
      UnknownTexts(t, base, number, bs[1..]);
      DecodeAppend(t, base, WriteTag(number, DELIMITED) + Blob(bs[0]), EncodeTexts(number, bs[1..]));
    }
  }

  /** A sub-message record is a length-delimited blob of its encoding. */
  lemma NestedIsBlob(f: Field, m: Msg)
    requires f.ftype.Nested?
    ensures EncodeNested(f, m) == WriteTag(f.number, DELIMITED) + Blob(Encode(f.ftype.schema, m))
  {
    hide WriteTag, Varint, Encode, Size;
    EncodedSize(f.ftype.schema, m);
    var e := Encode(f.ftype.schema, m);
    assert WriteTag(f.number, DELIMITED) + Varint(|e|) + e == WriteTag(f.number, DELIMITED) + (Varint(|e|) + e);
  }

  lemma {:induction false} UnknownNested(t: Schema, base: Msg, f: Field, ms: seq<Msg>)
    requires f.ftype.Nested? && Lookup(t.fields, f.number).None? && f.number < 0x8000_0000
    requires SizeNestedAll(f, ms) < TWO64
    ensures Decode(t, base, EncodeNestedAll(f, ms)) == Some(base)
    decreases |ms|
  {
    hide WriteTag, Lookup, Blob, Decode, TagSize, VarintSize, Encode, EncodeNested, Size;
    if ms == [] {
      NothingToDo(t, base);
    } else {
      NestedIsBlob(f, ms[0]);
      EncodedSize(f.ftype.schema, ms[0]);
      UnknownBlob(t, base, f.number, Encode(f.ftype.schema, ms[0]));
      UnknownNested(t, base, f, ms[1..]);
      DecodeAppend(t, base, EncodeNested(f, ms[0]), EncodeNestedAll(f, ms[1..]));
    }
  }

  /** The packed form is a length-delimited blob of its elements. */
  lemma PackedIsBlob(number: nat, s: Scalar, ns: seq<int>)
    ensures WriteTag(number, DELIMITED) + Varint(PackedSize(s, ns)) + WriteNums(s, ns)
         == WriteTag(number, DELIMITED) + Blob(WriteNums(s, ns))
  {
    hide WriteTag, Varint, WriteNums, PackedSize;
    PackedLength(s, ns);
    var e := WriteNums(s, ns);
    assert WriteTag(number, DELIMITED) + Varint(|e|) + e == WriteTag(number, DELIMITED) + (Varint(|e|) + e);
  }

  lemma UnknownField(t: Schema, base: Msg, f: Field, slot: Slot)
    requires Lookup(t.fields, f.number).None? && f.number < 0x8000_0000
    requires ValidSlot(f, slot) && SizeField(f, slot) < TWO64
    ensures Decode(t, base, EncodeField(f, slot)) == Some(base)
  {
    hide WriteTag, Lookup, Blob, Decode, TagSize, VarintSize, Encode, Size, InRange, WriteNum, WriteNums, PackedSize, Valid;
    NothingToDo(t, base);
    match f.ftype
    case Numeric(s) =>
      if !f.repeated {
        NumSkipped(s, slot.n, []);
        assert WriteNum(s, slot.n) + [] == WriteNum(s, slot.n);
        UnknownRecord(t, base, f.number, WireOf(s), WriteNum(s, slot.n));
      } else if IsPacked(f) {
        PackedIsBlob(f.number, s, slot.ns);
        PackedLength(s, slot.ns);
        if slot.ns != [] {
          UnknownBlob(t, base, f.number, WriteNums(s, slot.ns));
        }
      } else {
        UnknownUnpacked(t, base, f.number, s, slot.ns);
      }
    case Text =>
      if f.repeated {
        UnknownTexts(t, base, f.number, slot.bs);
      } else if slot.b != [] {
        UnknownBlob(t, base, f.number, slot.b);
      }
    case Nested(sub) =>
      if f.repeated {
        UnknownNested(t, base, f, slot.ms);
      } else if slot.has {
        NestedIsBlob(f, slot.m);
        EncodedSize(sub, slot.m);
        UnknownBlob(t, base, f.number, Encode(sub, slot.m));
      }
  }

  // ----- fields the reader knows -----

  ghost function Put(base: Msg, n: nat, slot: Slot): (r: Msg)
  {
    Msg(base.slots[n := slot])
  }

  /** The reader's field g holds a slot of its own type in base. */
  ghost predicate Holds(t: Schema, base: Msg, g: Field)
  {
    && Lookup(t.fields, g.number) == Some(g) && g.number < 0x8000_0000
    && g.number in base.slots && ValidSlot(g, base.slots[g.number])
  }

  lemma {:induction false} KnownUnpacked(t: Schema, base: Msg, g: Field, s: Scalar, ns: seq<int>)
    requires Holds(t, base, g) && g.ftype == Numeric(s) && g.repeated && AllInRange(s, ns)
    ensures Decode(t, base, EncodeUnpacked(g.number, s, ns))
         == Some(Put(base, g.number, Nums(OldNums(base.slots[g.number]) + ns)))
    decreases |ns|
  {
    hide WriteTag, WriteNum, Lookup, InRange, Decode, ReadNum;
    var cur := OldNums(base.slots[g.number]);
    if ns == [] {
      NothingToDo(t, base);
      assert cur + ns == cur;
      assert base.slots[g.number := Nums(cur)] == base.slots;
    } else {
      var head := WriteTag(g.number, WireOf(s)) + WriteNum(s, ns[0]);
      var mid := Put(base, g.number, Nums(cur + [ns[0]]));
      NumRoundTrip(s, ns[0], []);
      assert WriteNum(s, ns[0]) + [] == WriteNum(s, ns[0]);
      KnownRecord(t, base, g, WireOf(s), WriteNum(s, ns[0]), Nums(cur + [ns[0]]));
      KnownUnpacked(t, mid, g, s, ns[1..]);
      DecodeAppend(t, base, head, EncodeUnpacked(g.number, s, ns[1..]));
      assert cur + [ns[0]] + ns[1..] == cur + ns;
      assert mid.slots[g.number := Nums(cur + ns)] == base.slots[g.number := Nums(cur + ns)];
    }
  }

  lemma {:induction false} KnownTexts(t: Schema, base: Msg, g: Field, bs: seq<seq<Byte>>)
    requires Holds(t, base, g) && g.ftype.Text? && g.repeated && SizeTexts(g.number, bs) < TWO64
    ensures Decode(t, base, EncodeTexts(g.number, bs))
         == Some(Put(base, g.number, Strs(OldStrs(base.slots[g.number]) + bs)))
    decreases |bs|
  {
    hide WriteTag, Lookup, Blob, ReadBlob, Decode, TagSize, VarintSize;
    var cur := OldStrs(base.slots[g.number]);
    if bs == [] {
      NothingToDo(t, base);
      assert cur + bs == cur;
      assert base.slots[g.number := Strs(cur)] == base.slots;
    } else {
      var mid := Put(base, g.number, Strs(cur + [bs[0]]));
      BlobRoundTrip(bs[0], []);
      assert Blob(bs[0]) + [] == Blob(bs[0]);
      KnownRecord(t, base, g, DELIMITED, Blob(bs[0]), Strs(cur + [bs[0]]));
      KnownTexts(t, mid, g, bs[1..]);
      DecodeAppend(t, base, WriteTag(g.number, DELIMITED) + Blob(bs[0]), EncodeTexts(g.number, bs[1..]));
      assert cur + [bs[0]] + bs[1..] == cur + bs;
      assert mid.slots[g.number := Strs(cur + bs)] == base.slots[g.number := Strs(cur + bs)];
    }
  }

  lemma KnownPacked(t: Schema, base: Msg, g: Field, s: Scalar, ns: seq<int>)
    requires Holds(t, base, g) && g.ftype == Numeric(s) && g.repeated && AllInRange(s, ns)
    requires PackedSize(s, ns) < TWO64
    ensures Decode(t, base, WriteTag(g.number, DELIMITED) + Blob(WriteNums(s, ns)))
         == Some(Put(base, g.number, Nums(OldNums(base.slots[g.number]) + ns)))
  {
    hide WriteTag, Lookup, Blob, ReadBlob, Decode, ReadPacked, WriteNums, PackedSize, InRange;
    var e := WriteNums(s, ns);
    PackedLength(s, ns);
    BlobRoundTrip(e, []);
    assert Blob(e) + [] == Blob(e);
    PackedRoundTrip(s, ns);
    KnownRecord(t, base, g, DELIMITED, Blob(e), Nums(OldNums(base.slots[g.number]) + ns));
  }

  // ----- the main theorem -----

  ghost predicate Compatible(t: Schema, s: Schema, base: Msg, m: Msg)
  {
    WellFormed(t) && WellFormed(s) && Covers(t, s) && Valid(t, base) && Valid(s, m)
  }

  /** One sub-message record. */
  lemma {:induction false} KnownNested(t: Schema, base: Msg, g: Field, f: Field, m: Msg)
    requires Holds(t, base, g) && SameShape(g, f) && g.ftype.Nested? && !g.repeated
    requires Compatible(g.ftype.schema, f.ftype.schema, base.slots[g.number].m, m)
    requires Size(f.ftype.schema, m) < TWO64
    ensures Decode(t, base, EncodeNested(f, m))
         == Some(Put(base, g.number, Sub(true, Merge(g.ftype.schema, base.slots[g.number].m, m))))
    decreases f, 0
  {
    hide WriteTag, Lookup, Blob, ReadBlob, Decode, Encode, EncodeNested, Size, Merge, Compatible, Covers;
    var e := Encode(f.ftype.schema, m);
    NestedIsBlob(f, m);
    EncodedSize(f.ftype.schema, m);
    BlobRoundTrip(e, []);
    assert Blob(e) + [] == Blob(e);
    DecodeEncode(g.ftype.schema, f.ftype.schema, base.slots[g.number].m, m);
    KnownRecord(t, base, g, DELIMITED, Blob(e), Sub(true, Merge(g.ftype.schema, base.slots[g.number].m, m)));
  }

  lemma {:induction false} KnownNestedAll(t: Schema, base: Msg, g: Field, f: Field, ms: seq<Msg>)
    requires Holds(t, base, g) && SameShape(g, f) && g.ftype.Nested? && g.repeated
    requires WellFormed(g.ftype.schema) && WellFormed(f.ftype.schema) && Covers(g.ftype.schema, f.ftype.schema)
    requires forall i :: 0 <= i < |ms| ==> Valid(f.ftype.schema, ms[i])
    requires SizeNestedAll(f, ms) < TWO64
    ensures Decode(t, base, EncodeNestedAll(f, ms))
         == Some(Put(base, g.number, Subs(OldSubs(base.slots[g.number]) + Fresh(g.ftype.schema, ms))))
    decreases f, 0, |ms|
  {
    hide WriteTag, Lookup, Blob, ReadBlob, Decode, Encode, EncodeNested, Size, Merge, Covers, WellFormed, Valid,
         TagSize, VarintSize;
    var sub := g.ftype.schema;
    var cur := OldSubs(base.slots[g.number]);
    if ms == [] {
      NothingToDo(t, base);
      assert cur + Fresh(sub, ms) == cur;
      assert base.slots[g.number := Subs(cur)] == base.slots;
    } else {
      var one := Merge(sub, Default(sub), ms[0]);
      var mid := Put(base, g.number, Subs(cur + [one]));
      DefaultValid(sub);
      NestedElement(t, base, g, f, ms[0]);
      MergedElementValid(sub, f.ftype.schema, ms[0]);
      KnownNestedAll(t, mid, g, f, ms[1..]);
      DecodeAppend(t, base, EncodeNested(f, ms[0]), EncodeNestedAll(f, ms[1..]));
      var all := cur + Fresh(sub, ms);
      assert cur + [one] + Fresh(sub, ms[1..]) == all;
      assert mid.slots[g.number := Subs(all)] == base.slots[g.number := Subs(all)];
    }
  }

  lemma MergedElementValid(t: Schema, s: Schema, m: Msg)
    requires WellFormed(t) && WellFormed(s) && Covers(t, s) && Valid(s, m)
    ensures Valid(t, Merge(t, Default(t), m))
  {
    hide WellFormed, Covers, Valid, MergeOn;
    DefaultValid(t);
    MergeValid(t, s, Default(t), m, m.slots.Keys);
  }

  lemma {:induction false} NestedElement(t: Schema, base: Msg, g: Field, f: Field, m: Msg)
    requires Holds(t, base, g) && SameShape(g, f) && g.ftype.Nested? && g.repeated
    requires Compatible(g.ftype.schema, f.ftype.schema, Default(g.ftype.schema), m)
    requires Size(f.ftype.schema, m) < TWO64
    ensures Decode(t, base, EncodeNested(f, m))
         == Some(Put(base, g.number, Subs(OldSubs(base.slots[g.number]) + [Merge(g.ftype.schema, Default(g.ftype.schema), m)])))
    decreases f, 0, 0
  {
    hide WriteTag, Lookup, Blob, ReadBlob, Decode, Encode, EncodeNested, Size, Merge, Compatible, Covers;
    var sub := g.ftype.schema;
    var e := Encode(f.ftype.schema, m);
    NestedIsBlob(f, m);
    EncodedSize(f.ftype.schema, m);
    BlobRoundTrip(e, []);
    assert Blob(e) + [] == Blob(e);
    DecodeEncode(sub, f.ftype.schema, Default(sub), m);
    KnownRecord(t, base, g, DELIMITED, Blob(e), Subs(OldSubs(base.slots[g.number]) + [Merge(sub, Default(sub), m)]));
  }

  lemma {:induction false} KnownField(t: Schema, base: Msg, g: Field, f: Field, slot: Slot)
    requires Holds(t, base, g) && SameShape(g, f) && ValidSlot(f, slot) && SizeField(f, slot) < TWO64
    requires g.ftype.Nested? ==> WellFormed(g.ftype.schema) && WellFormed(f.ftype.schema)
    ensures Decode(t, base, EncodeField(f, slot))
         == Some(Put(base, g.number, MergeSlot(g, base.slots[g.number], slot)))
    decreases f, 1
  {
    hide WriteTag, Lookup, Blob, Decode, TagSize, VarintSize, Encode, EncodeNested, Size, InRange, WriteNum, WriteNums,
         PackedSize, Valid, Covers, WellFormed, Merge, NonDefault, ReadNum, ReadBlob;
    NothingToDo(t, base);
    var cur := base.slots[g.number];
    assert base.slots[g.number := cur] == base.slots;
    match g.ftype
    case Numeric(s) =>
      if !g.repeated {
        NumRoundTrip(s, slot.n, []);
        assert WriteNum(s, slot.n) + [] == WriteNum(s, slot.n);
        KnownRecord(t, base, g, WireOf(s), WriteNum(s, slot.n), Num(slot.n));
      } else if IsPacked(f) {
        if slot.ns == [] {
          assert cur.ns + [] == cur.ns;
        } else {
          PackedIsBlob(f.number, s, slot.ns);
          KnownPacked(t, base, g, s, slot.ns);
        }
      } else {
        KnownUnpacked(t, base, g, s, slot.ns);
      }
    case Text =>
      if g.repeated {
        KnownTexts(t, base, g, slot.bs);
      } else if slot.b != [] {
        BlobRoundTrip(slot.b, []);
        assert Blob(slot.b) + [] == Blob(slot.b);
        KnownRecord(t, base, g, DELIMITED, Blob(slot.b), Str(slot.b));
      }
    case Nested(sub) =>
      if g.repeated {
        KnownNestedAll(t, base, g, f, slot.ms);
      } else if slot.has {
        KnownNested(t, base, g, f, slot.m);
      }
  }

  /** Decoding what writer schema s wrote, with a reader schema t that keeps some of its
      fields at every level, merges exactly those fields into the message. */
  lemma {:induction false} DecodeEncode(t: Schema, s: Schema, base: Msg, m: Msg)
    requires Compatible(t, s, base, m) && Size(s, m) < TWO64
    ensures Decode(t, base, Encode(s, m)) == Some(Merge(t, base, m))
    decreases s, 2
  {
    hide Decode, MergeOn, EncodeFields, SizeFields, WellFormed, Covers;
    assert s.fields[0..] == s.fields;
    DecodeFields(t, s, base, m, 0);
  }

  lemma {:induction false} DecodeFields(t: Schema, s: Schema, base: Msg, m: Msg, k: nat)
    requires Compatible(t, s, base, m) && k <= |s.fields| && SizeFields(s.fields[k..], m) < TWO64
    ensures Decode(t, base, EncodeFields(s.fields[k..], m)) == Some(MergeOn(t, base, m, Numbers(s.fields[k..])))
    decreases s, 1, |s.fields| - k
  {
    hide Decode, MergeOn, EncodeField, SizeField, Covers, WellFormed, ValidSlot, Numbers;
    var fs := s.fields[k..];
    if k == |s.fields| {
      NothingToDo(t, base);
      NoNumbers(fs);
      MergeNothing(t, base, m, Numbers(fs));
    } else {
      var f := s.fields[k];
      assert fs[0] == f && fs[1..] == s.fields[k + 1..];
      assert f.number in m.slots by { NumberIn(s.fields, k); }
      OneField(t, s, base, m, k);
      var mid := MergeOn(t, base, m, {f.number});
      MergeValid(t, s, base, m, {f.number});
      FieldsSize(fs[1..], m);
      DecodeFields(t, s, mid, m, k + 1);
      DecodeAppend(t, base, EncodeField(f, m.slots[f.number]), EncodeFields(fs[1..], m));
      NumbersCons(fs);
      Ordered(s);
      LaterNumbers(s.fields, k);
      MergeInTwo(t, base, m, f.number, Numbers(fs[1..]));
    }
  }

  lemma NoNumbers(fs: seq<Field>)
    requires fs == []
    ensures Numbers(fs) == {}
  {
  }

  lemma NumberIn(fs: seq<Field>, k: nat)
    requires k < |fs|
    ensures fs[k].number in Numbers(fs)
  {
  }

  lemma LaterNumbers(fs: seq<Field>, k: nat)
    requires k < |fs|
    requires forall i, j :: 0 <= i < j < |fs| ==> fs[i].number < fs[j].number
    ensures fs[k].number !in Numbers(fs[k + 1..])
  {
  }

  lemma MergeNothing(t: Schema, base: Msg, m: Msg, ns: set<nat>)
    requires ns == {}
    ensures MergeOn(t, base, m, ns) == base
  {
    hide MergeSlot, Lookup;
    assert MergeOn(t, base, m, ns).slots == base.slots;
  }

  lemma MergeInTwo(t: Schema, base: Msg, m: Msg, n: nat, ns: set<nat>)
    requires n !in ns
    ensures MergeOn(t, MergeOn(t, base, m, {n}), m, ns) == MergeOn(t, base, m, {n} + ns)
  {
    hide MergeSlot, Lookup;
    assert MergeOn(t, MergeOn(t, base, m, {n}), m, ns).slots == MergeOn(t, base, m, {n} + ns).slots;
  }

  lemma {:induction false} OneField(t: Schema, s: Schema, base: Msg, m: Msg, k: nat)
    requires Compatible(t, s, base, m) && k < |s.fields| && s.fields[k].number in m.slots
    requires SizeField(s.fields[k], m.slots[s.fields[k].number]) < TWO64
    ensures Decode(t, base, EncodeField(s.fields[k], m.slots[s.fields[k].number]))
         == Some(MergeOn(t, base, m, {s.fields[k].number}))
    decreases s, 0
  {
    hide Decode, EncodeField, SizeField, WellFormed, Valid, ValidSlot, MergeSlot, MergeOn, Covers, SameShape, Lookup;
    var f := s.fields[k];
    var n := f.number;
    Ordered(s);
    Ordered(t);
    LookupOwn(s.fields, k);
    SlotIn(s, m, f);
    match Lookup(t.fields, n)
    case None =>
      UnknownField(t, base, f, m.slots[n]);
      MergeUnknown(t, base, m, n);
    case Some(g) =>
      LookupIndex(t.fields, n);
      Inner(t, g);
      Inner(s, f);
      SlotIn(t, base, g);
      CoveredField(t, s, g, f);
      ShapeInner(g, f);
      KnownField(t, base, g, f, m.slots[n]);
      MergeKnown(t, base, m, g);
  }

  lemma MergeUnknown(t: Schema, base: Msg, m: Msg, n: nat)
    requires Lookup(t.fields, n).None?
    ensures MergeOn(t, base, m, {n}) == base
  {
    hide MergeSlot, Lookup;
    assert MergeOn(t, base, m, {n}).slots == base.slots;
  }

  lemma MergeKnown(t: Schema, base: Msg, m: Msg, g: Field)
    requires Lookup(t.fields, g.number) == Some(g) && g.number in base.slots && g.number in m.slots
    ensures MergeOn(t, base, m, {g.number}) == Put(base, g.number, MergeSlot(g, base.slots[g.number], m.slots[g.number]))
  {
    hide MergeSlot, Lookup;
    var n := g.number;
    var slot := MergeSlot(g, base.slots[n], m.slots[n]);
    var x, y := MergeOn(t, base, m, {n}).slots, base.slots[n := slot];
    assert x.Keys == base.slots.Keys == y.Keys;
    assert x[n] == slot;
    forall k | k in base.slots && k != n ensures x[k] == base.slots[k] {
    }
    assert x == y;
  }

  lemma SlotIn(s: Schema, m: Msg, f: Field)
    requires Valid(s, m) && f in s.fields
    ensures f.number in m.slots && ValidSlot(f, m.slots[f.number])
  {
    hide ValidSlot;
  }

  lemma CoveredField(t: Schema, s: Schema, g: Field, f: Field)
    requires Covers(t, s) && g in t.fields && Lookup(s.fields, g.number) == Some(f)
    ensures SameShape(g, f)
  {
    hide SameShape, Lookup;
  }

  lemma ShapeInner(g: Field, f: Field)
    requires SameShape(g, f)
    ensures g.ftype.Nested? <==> f.ftype.Nested?
  {
  }
}
