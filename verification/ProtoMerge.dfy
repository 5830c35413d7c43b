/** Decoding against merging: concatenated encodings merge, unknown fields drop out,
    and decoding an encoding gives the message back. */
module ProtoMerge {
  import opened Arith
  import opened Options
  import opened Wire
  import opened Proto
  import opened ProtoScalars

  // ----- decoding a concatenation is decoding in sequence -----

  lemma FieldExtend(f: Field, cur: Slot, wire: nat, b: seq<Byte>, tail: seq<Byte>)
    requires DecodeField(f, cur, wire, b).Got?
    ensures DecodeField(f, cur, wire, b + tail)
         == Got(DecodeField(f, cur, wire, b).value, DecodeField(f, cur, wire, b).rest + tail)
  {
    hide ReadBlob, ReadNum, ReadPacked, Decode;
    match f.ftype
    case Nested(sub) => BlobExtend(b, tail);
    case Text => BlobExtend(b, tail);
    case Numeric(s) =>
      if f.repeated && wire == DELIMITED {
        BlobExtend(b, tail);
      } else {
        NumExtend(s, b, tail);
      }
  }

  /** Whatever bytes x are accepted, x followed by y decodes y into what x left. */
  lemma {:induction false} DecodeAppend(s: Schema, m: Msg, x: seq<Byte>, y: seq<Byte>)
    requires Decode(s, m, x).Some?
    ensures Decode(s, m, x + y) == Decode(s, Decode(s, m, x).value, y)
    decreases |x|
  {
    hide ReadTag, Lookup, Skip, DecodeField;
    if x == [] {
      assert x + y == y;
    } else {
      TagExtend(x, y);
      var tag, rest := ReadTag(x).value, ReadTag(x).rest;
      match Lookup(s.fields, tag.number)
      case None =>
        SkipExtend(tag.wire, rest, y);
        DecodeAppend(s, m, Skip(tag.wire, rest).rest, y);
      case Some(f) =>
        var cur := if f.number in m.slots then m.slots[f.number] else DefaultSlot(f);
        FieldExtend(f, cur, tag.wire, rest, y);
        var r := DecodeField(f, cur, tag.wire, rest);
        DecodeAppend(s, Msg(m.slots[f.number := r.value]), r.rest, y);
    }
  }

  // ----- well-formed messages -----

  /** The members have their declared types and ranges; an absent sub-message is untouched. */
  ghost predicate Valid(s: Schema, m: Msg)
    decreases s, 1
  {
    && m.slots.Keys == Numbers(s.fields)
    && forall i :: 0 <= i < |s.fields| ==> ValidSlot(s.fields[i], m.slots[s.fields[i].number])
  }

  ghost predicate ValidSlot(f: Field, slot: Slot)
    decreases f, 0
  {
    match f.ftype
    case Numeric(s) => if f.repeated then slot.Nums? && AllInRange(s, slot.ns) else slot.Num? && InRange(s, slot.n)
    case Text => if f.repeated then slot.Strs? else slot.Str?
    case Nested(sub) =>
      if f.repeated then slot.Subs? && forall i :: 0 <= i < |slot.ms| ==> Valid(sub, slot.ms[i])
      else slot.Sub? && Valid(sub, slot.m) && (!slot.has ==> slot.m == Default(sub))
  }

  /** Reader schema t keeps some of the fields of writer schema s, at every level. */
  ghost predicate Covers(t: Schema, s: Schema)
    decreases t, 1
  {
    forall i :: 0 <= i < |t.fields| ==>
      && Lookup(s.fields, t.fields[i].number).Some?
      && SameShape(t.fields[i], Lookup(s.fields, t.fields[i].number).value)
  }

  ghost predicate SameShape(g: Field, f: Field)
    decreases g, 0
  {
    && g.number == f.number && g.repeated == f.repeated
    && match g.ftype
       case Numeric(s) => f.ftype == Numeric(s)
       case Text => f.ftype.Text?
       case Nested(sub) => f.ftype.Nested? && Covers(sub, f.ftype.schema)
  }

  // ----- the merge, stated without bytes -----

  /** Merge the fields of m with numbers in ns into base, as far as schema t knows them. */
  ghost function MergeOn(t: Schema, base: Msg, m: Msg, ns: set<nat>): (r: Msg)
    decreases t, 1
  {
    Msg(map n | n in base.slots ::
      if n in ns && n in m.slots && Lookup(t.fields, n).Some?
      then MergeSlot(Lookup(t.fields, n).value, base.slots[n], m.slots[n])
      else base.slots[n])
  }

  ghost function Merge(t: Schema, base: Msg, m: Msg): (r: Msg)
    decreases t, 2
  {
    MergeOn(t, base, m, m.slots.Keys)
  }

  /** The last non-default scalar wins, repeated fields concatenate, sub-messages merge. */
  ghost function MergeSlot(g: Field, old_: Slot, new_: Slot): (r: Slot)
    decreases g, 0
  {
    match g.ftype
    case Numeric(s) =>
      if g.repeated then Nums(OldNums(old_) + OldNums(new_))
      else if new_.Num? && NonDefault(s, new_.n) then new_ else old_
    case Text =>
      if g.repeated then Strs(OldStrs(old_) + OldStrs(new_))
      else if new_.Str? && new_.b != [] then new_ else old_
    case Nested(sub) =>
      if g.repeated then Subs(OldSubs(old_) + Fresh(sub, OldSubs(new_)))
      else if new_.Sub? && new_.has then Sub(true, Merge(sub, if old_.Sub? then old_.m else Default(sub), new_.m))
      else old_
  }

  /** Elements of a repeated message field are merged into new objects. */
  ghost function Fresh(sub: Schema, ms: seq<Msg>): (r: seq<Msg>)
    ensures |r| == |ms|
    decreases sub, 3, |ms|
  {
    if ms == [] then [] else [Merge(sub, Default(sub), ms[0])] + Fresh(sub, ms[1..])
  }

  // ----- facts about schemas -----

  lemma {:induction false} LookupOwn(fs: seq<Field>, k: nat)
    requires k < |fs|
    requires forall i, j :: 0 <= i < j < |fs| ==> fs[i].number < fs[j].number
    ensures Lookup(fs, fs[k].number) == Some(fs[k])
  {
    if k > 0 {
      LookupOwn(fs[1..], k - 1);
    }
  }

  lemma LookupIndex(fs: seq<Field>, n: nat)
    requires Lookup(fs, n).Some?
    ensures exists i :: 0 <= i < |fs| && fs[i] == Lookup(fs, n).value
  {
    assert Lookup(fs, n).value in fs;
  }

  lemma {:induction false} DefaultKeys(fs: seq<Field>)
    ensures DefaultFields(fs).Keys == Numbers(fs)
  {
    hide DefaultSlot;
    if fs != [] {
      DefaultKeys(fs[1..]);
      NumbersCons(fs);
    }
  }

  lemma NumbersCons(fs: seq<Field>)
    requires fs != []
    ensures Numbers(fs) == {fs[0].number} + Numbers(fs[1..])
  {
    forall n | n in Numbers(fs)
      ensures n == fs[0].number || n in Numbers(fs[1..])
    {
      var i :| 0 <= i < |fs| && fs[i].number == n;
      assert i > 0 ==> fs[i] == fs[1..][i - 1];
    }
    forall n | n in Numbers(fs[1..])
      ensures n in Numbers(fs)
    {
      var i :| 0 <= i < |fs[1..]| && fs[1..][i].number == n;
      assert fs[i + 1].number == n;
    }
  }

  lemma {:induction false} DefaultAt(fs: seq<Field>, k: nat)
    requires k < |fs|
    requires forall i, j :: 0 <= i < j < |fs| ==> fs[i].number < fs[j].number
    ensures fs[k].number in DefaultFields(fs) && DefaultFields(fs)[fs[k].number] == DefaultSlot(fs[k])
  {
    hide DefaultSlot;
    if k > 0 {
      DefaultAt(fs[1..], k - 1);
    }
  }

  lemma {:induction false} DefaultValid(s: Schema)
    requires WellFormed(s)
    ensures Valid(s, Default(s))
    decreases s
  {
    DefaultKeys(s.fields);
    forall i | 0 <= i < |s.fields|
      ensures ValidSlot(s.fields[i], Default(s).slots[s.fields[i].number])
    {
      DefaultAt(s.fields, i);
      var f := s.fields[i];
      if f.ftype.Nested? {
        DefaultValid(f.ftype.schema);
      }
    }
  }

  // ----- merging keeps messages valid -----

  lemma {:induction false} MergeValid(t: Schema, s: Schema, base: Msg, m: Msg, ns: set<nat>)
    requires WellFormed(t) && WellFormed(s) && Covers(t, s) && Valid(t, base) && Valid(s, m)
    ensures Valid(t, MergeOn(t, base, m, ns))
    decreases t, 1
  {
    hide MergeSlot, ValidSlot, WellFormed;
    var r := MergeOn(t, base, m, ns);
    assert r.slots.Keys == base.slots.Keys;
    forall i | 0 <= i < |t.fields|
      ensures ValidSlot(t.fields[i], r.slots[t.fields[i].number])
    {
      var g := t.fields[i];
      Ordered(t);
      LookupOwn(t.fields, i);
      var f := Lookup(s.fields, g.number).value;
      LookupIndex(s.fields, g.number);
      assert g.number in base.slots;
      if g.number in ns && g.number in m.slots {
        Inner(t, g);
        Inner(s, f);
        SlotValid(g, f, base.slots[g.number], m.slots[g.number]);
      }
    }
  }

  lemma Ordered(s: Schema)
    requires WellFormed(s)
    ensures forall i, j :: 0 <= i < j < |s.fields| ==> s.fields[i].number < s.fields[j].number
    ensures forall i :: 0 <= i < |s.fields| ==> s.fields[i].number < 0x8000_0000
  {
  }

  lemma Inner(s: Schema, f: Field)
    requires WellFormed(s) && f in s.fields
    ensures f.ftype.Nested? ==> WellFormed(f.ftype.schema)
  {
  }

  lemma {:induction false} SlotValid(g: Field, f: Field, old_: Slot, new_: Slot)
    requires SameShape(g, f) && ValidSlot(g, old_) && ValidSlot(f, new_)
    requires g.ftype.Nested? ==> WellFormed(g.ftype.schema)
    requires f.ftype.Nested? ==> WellFormed(f.ftype.schema)
    ensures ValidSlot(g, MergeSlot(g, old_, new_))
    decreases g, 0
  {
    hide InRange, NonDefault, MergeOn, Covers, WellFormed;
    if g.ftype.Nested? {
      var sub := g.ftype.schema;
      if g.repeated {
        FreshValid(sub, f.ftype.schema, new_.ms);
      } else if new_.has {
        MergeValid(sub, f.ftype.schema, old_.m, new_.m, new_.m.slots.Keys);
      }
    }
  }

  lemma {:induction false} FreshValid(t: Schema, s: Schema, ms: seq<Msg>)
    requires WellFormed(t) && WellFormed(s) && Covers(t, s)
    requires forall i :: 0 <= i < |ms| ==> Valid(s, ms[i])
    ensures forall i :: 0 <= i < |ms| ==> Valid(t, Fresh(t, ms)[i])
    decreases t, 2, |ms|
  {
    hide MergeOn, Covers, WellFormed, Valid;
    if ms != [] {
      DefaultValid(t);
      MergeValid(t, s, Default(t), ms[0], ms[0].slots.Keys);
      FreshValid(t, s, ms[1..]);
    }
  }
}
