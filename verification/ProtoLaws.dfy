/** What the codec promises its callers. */
module ProtoLaws {
  import opened Options
  import opened Wire
  import opened Proto
  import opened ProtoScalars
  import opened ProtoMerge
  import opened ProtoRoundTrip

  /** m with only the fields schema t knows, at every level. */
  ghost function Project(t: Schema, m: Msg): (r: Msg)
    decreases t, 1
  {
    Msg(map n | n in Numbers(t.fields) && n in m.slots ::
      if Lookup(t.fields, n).Some? then ProjectSlot(Lookup(t.fields, n).value, m.slots[n]) else m.slots[n])
  }

  ghost function ProjectSlot(g: Field, slot: Slot): (r: Slot)
    decreases g, 0
  {
    match g.ftype
    case Nested(sub) =>
      (match slot
       case Sub(has, m) => Sub(has, if has then Project(sub, m) else Default(sub))
       case Subs(ms) => Subs(ProjectAll(sub, ms))
       case _ => slot)
    case _ => slot
  }

  ghost function ProjectAll(sub: Schema, ms: seq<Msg>): (r: seq<Msg>)
    ensures |r| == |ms|
    decreases sub, 2, |ms|
  {
    if ms == [] then [] else [Project(sub, ms[0])] + ProjectAll(sub, ms[1..])
  }

  /** No singular float or double that t keeps holds a negative zero. */
  ghost predicate Clean(t: Schema, m: Msg)
    decreases t, 1
  {
    forall i :: 0 <= i < |t.fields| ==> t.fields[i].number in m.slots && CleanSlot(t.fields[i], m.slots[t.fields[i].number])
  }

  ghost predicate CleanSlot(g: Field, slot: Slot)
    decreases g, 0
  {
    match g.ftype
    case Numeric(s) => g.repeated || (slot.Num? ==> !(s.Float? && slot.n == 0x8000_0000) && !(s.Double? && slot.n == 0x8000_0000_0000_0000))
    case Text => true
    case Nested(sub) =>
      match slot
      case Sub(has, m) => has ==> Clean(sub, m)
      case Subs(ms) => forall i :: 0 <= i < |ms| ==> Clean(sub, ms[i])
      case _ => true
  }

  // ----- a freshly decoded message is the projection, exactly when it is clean -----

  lemma {:induction false} MergeIsProjection(t: Schema, s: Schema, m: Msg)
    requires WellFormed(t) && WellFormed(s) && Covers(t, s) && Valid(s, m)
    ensures Merge(t, Default(t), m) == Project(t, m) <==> Clean(t, m)
    decreases t, 1
  {
    hide MergeSlot, ProjectSlot, CleanSlot, ValidSlot, WellFormed, DefaultFields, Lookup, SameShape;
    DefaultKeys(t.fields);
    Ordered(t);
    var a, b := Merge(t, Default(t), m), Project(t, m);
    forall i | 0 <= i < |t.fields|
      ensures var n := t.fields[i].number;
              && n in m.slots && n in a.slots && n in b.slots
              && (a.slots[n] == b.slots[n] <==> CleanSlot(t.fields[i], m.slots[n]))
    {
      FieldIsProjection(t, s, m, i);
    }
    MergeKeys(t, Default(t), m, m.slots.Keys);
    assert forall n :: n in Numbers(t.fields) ==> n in m.slots;
    assert b.slots.Keys == Numbers(t.fields);
    AgreeOnFields(t, a, b);
  }

  lemma MergeKeys(t: Schema, base: Msg, m: Msg, ns: set<nat>)
    ensures MergeOn(t, base, m, ns).slots.Keys == base.slots.Keys
  {
    hide MergeSlot, Lookup;
  }

  lemma AgreeOnFields(t: Schema, a: Msg, b: Msg)
    requires a.slots.Keys == Numbers(t.fields) == b.slots.Keys
    ensures a == b <==> forall i :: 0 <= i < |t.fields| ==> a.slots[t.fields[i].number] == b.slots[t.fields[i].number]
  {
    if forall i :: 0 <= i < |t.fields| ==> a.slots[t.fields[i].number] == b.slots[t.fields[i].number] {
      assert a.slots == b.slots;
    }
  }

  lemma {:induction false} FieldIsProjection(t: Schema, s: Schema, m: Msg, i: nat)
    requires WellFormed(t) && WellFormed(s) && Covers(t, s) && Valid(s, m) && i < |t.fields|
    ensures var n := t.fields[i].number;
            && n in m.slots && n in Merge(t, Default(t), m).slots && n in Project(t, m).slots
            && (Merge(t, Default(t), m).slots[n] == Project(t, m).slots[n] <==> CleanSlot(t.fields[i], m.slots[n]))
    decreases t, 0
  {
    hide MergeSlot, ProjectSlot, CleanSlot, Valid, ValidSlot, WellFormed, DefaultFields, SameShape, Covers, Lookup;
    var g := t.fields[i];
    Ordered(t);
    Ordered(s);
    LookupOwn(t.fields, i);
    DefaultKeys(t.fields);
    DefaultAt(t.fields, i);
    NumberIn(t.fields, i);
    CoveredNumber(t, s, g);
    var f := Lookup(s.fields, g.number).value;
    LookupIndex(s.fields, g.number);
    CoveredField(t, s, g, f);
    SlotIn(s, m, f);
    Inner(t, g);
    Inner(s, f);
    ShapeInner(g, f);
    ShapeNumber(g, f);
    SlotIsProjection(g, f, m.slots[g.number]);
  }

  lemma CoveredNumber(t: Schema, s: Schema, g: Field)
    requires Covers(t, s) && g in t.fields
    ensures Lookup(s.fields, g.number).Some?
  {
    hide SameShape, Lookup;
  }

  lemma ShapeNumber(g: Field, f: Field)
    requires SameShape(g, f)
    ensures g.number == f.number
  {
  }

  lemma {:induction false} SlotIsProjection(g: Field, f: Field, slot: Slot)
    requires SameShape(g, f) && ValidSlot(f, slot)
    requires g.ftype.Nested? ==> WellFormed(g.ftype.schema) && WellFormed(f.ftype.schema)
    ensures MergeSlot(g, DefaultSlot(g), slot) == ProjectSlot(g, slot) <==> CleanSlot(g, slot)
    decreases g, 0
  {
    hide InRange, Covers, WellFormed, Valid, Default, Merge, Project, Clean;
    match g.ftype
    case Numeric(s) =>
      if g.repeated {
        assert [] + slot.ns == slot.ns;
      }
    case Text =>
      if g.repeated {
        assert [] + slot.bs == slot.bs;
      }
    case Nested(sub) =>
      if g.repeated {
        ElementsAreProjections(sub, f.ftype.schema, slot.ms);
        assert [] + Fresh(sub, slot.ms) == Fresh(sub, slot.ms);
      } else if slot.has {
        MergeIsProjection(sub, f.ftype.schema, slot.m);
      }
  }

  lemma {:induction false} ElementsAreProjections(t: Schema, s: Schema, ms: seq<Msg>)
    requires WellFormed(t) && WellFormed(s) && Covers(t, s)
    requires forall i :: 0 <= i < |ms| ==> Valid(s, ms[i])
    ensures Fresh(t, ms) == ProjectAll(t, ms) <==> forall i :: 0 <= i < |ms| ==> Clean(t, ms[i])
    decreases t, 2, |ms|
  {
    hide Covers, WellFormed, Valid, Default, Merge, Project, Clean;
    if ms != [] {
      MergeIsProjection(t, s, ms[0]);
      ElementsAreProjections(t, s, ms[1..]);
      assert Fresh(t, ms)[0] == Merge(t, Default(t), ms[0]) && Fresh(t, ms)[1..] == Fresh(t, ms[1..]);
      assert ProjectAll(t, ms)[0] == Project(t, ms[0]) && ProjectAll(t, ms)[1..] == ProjectAll(t, ms[1..]);
      assert forall i :: 1 <= i < |ms| ==> ms[i] == ms[1..][i - 1];
    }
  }

  // ----- the laws -----

  /** Forward compatibility: a reader that dropped fields sees exactly the projection,
      unless a float or double it keeps was a negative zero. */
  lemma DecodeUnderOldSchema(t: Schema, s: Schema, m: Msg)
    requires WellFormed(t) && WellFormed(s) && Covers(t, s) && Valid(s, m) && Size(s, m) < TWO64
    ensures Decode(t, Default(t), Encode(s, m)).Some?
    ensures Decode(t, Default(t), Encode(s, m)) == Some(Project(t, m)) <==> Clean(t, m)
  {
    hide Decode, Encode, Merge, Project, Clean, WellFormed, Covers, Valid, Size, Default;
    DefaultValid(t);
    DecodeEncode(t, s, Default(t), m);
    MergeIsProjection(t, s, m);
  }

  /** Round trip: decoding an encoding into a new object gives the message back, exactly
      when no singular float or double in it is a negative zero. */
  lemma RoundTrip(s: Schema, m: Msg)
    requires WellFormed(s) && Valid(s, m) && Size(s, m) < TWO64
    ensures Decode(s, Default(s), Encode(s, m)).Some?
    ensures Decode(s, Default(s), Encode(s, m)) == Some(m) <==> Clean(s, m)
  {
    hide Decode, Encode, Merge, Project, Clean, WellFormed, Covers, Valid, Size, Default;
    CoversSelf(s);
    ProjectSelf(s, m);
    DecodeUnderOldSchema(s, s, m);
  }

  /** Concatenated encodings merge: last non-default scalar wins, repeated fields
      concatenate, sub-messages merge. */
  lemma DecodeConcatenation(s: Schema, a: Msg, b: Msg)
    requires WellFormed(s) && Valid(s, a) && Valid(s, b) && Size(s, a) < TWO64 && Size(s, b) < TWO64
    ensures Decode(s, Default(s), Encode(s, a) + Encode(s, b)) == Some(Merge(s, Merge(s, Default(s), a), b))
    ensures Clean(s, a) ==> Decode(s, Default(s), Encode(s, a) + Encode(s, b)) == Some(Merge(s, a, b))
  {
    hide Decode, Encode, MergeOn, Project, Clean, WellFormed, Covers, Valid, Size, Default;
    CoversSelf(s);
    DefaultValid(s);
    DecodeEncode(s, s, Default(s), a);
    MergeValid(s, s, Default(s), a, a.slots.Keys);
    DecodeEncode(s, s, Merge(s, Default(s), a), b);
    DecodeAppend(s, Default(s), Encode(s, a), Encode(s, b));
    ProjectSelf(s, a);
    MergeIsProjection(s, s, a);
  }

  /** A singular float member holding -0.0 is not written and comes back as +0.0. */
  lemma NegativeZeroIsLost()
    ensures var s := Schema([Field(1, Numeric(Float), false, None)]);
            var m := Msg(map[1 := Num(0x8000_0000)]);
            WellFormed(s) && Valid(s, m) && Encode(s, m) == [] && Decode(s, Default(s), Encode(s, m)) != Some(m)
  {
    var s := Schema([Field(1, Numeric(Float), false, None)]);
    var m := Msg(map[1 := Num(0x8000_0000)]);
    assert s.fields[1..] == [];
    assert Numbers(s.fields) == {1} by {
      assert s.fields[0].number in Numbers(s.fields);
    }
    assert EncodeFields(s.fields, m) == [];
    assert Default(s).slots[1] == Num(0);
  }

  lemma {:induction false} CoversSelf(s: Schema)
    requires WellFormed(s)
    ensures Covers(s, s)
    decreases s
  {
    hide Lookup;
    Ordered(s);
    forall i | 0 <= i < |s.fields|
      ensures Lookup(s.fields, s.fields[i].number).Some?
           && SameShape(s.fields[i], Lookup(s.fields, s.fields[i].number).value)
    {
      LookupOwn(s.fields, i);
      if s.fields[i].ftype.Nested? {
        CoversSelf(s.fields[i].ftype.schema);
      }
    }
  }

  lemma {:induction false} ProjectSelf(s: Schema, m: Msg)
    requires WellFormed(s) && Valid(s, m)
    ensures Project(s, m) == m
    decreases s, 0
  {
    hide ValidSlot, ProjectSlot, Lookup, WellFormed;
    Ordered(s);
    forall i | 0 <= i < |s.fields|
      ensures Lookup(s.fields, s.fields[i].number) == Some(s.fields[i])
      ensures ProjectSlot(s.fields[i], m.slots[s.fields[i].number]) == m.slots[s.fields[i].number]
    {
      LookupOwn(s.fields, i);
      Inner(s, s.fields[i]);
      SlotSelf(s.fields[i], m.slots[s.fields[i].number]);
    }
    assert Project(s, m).slots == m.slots;
  }

  lemma {:induction false} SlotSelf(f: Field, slot: Slot)
    requires ValidSlot(f, slot) && (f.ftype.Nested? ==> WellFormed(f.ftype.schema))
    ensures ProjectSlot(f, slot) == slot
    decreases f, 0
  {
    hide Valid, WellFormed, Project, Default, InRange;
    if f.ftype.Nested? {
      if f.repeated {
        ElementsSelf(f.ftype.schema, slot.ms);
      } else {
        ProjectSelf(f.ftype.schema, slot.m);
      }
    }
  }

  lemma {:induction false} ElementsSelf(s: Schema, ms: seq<Msg>)
    requires WellFormed(s) && forall i :: 0 <= i < |ms| ==> Valid(s, ms[i])
    ensures ProjectAll(s, ms) == ms
    decreases s, 1, |ms|
  {
    hide Valid, WellFormed, Project;
    if ms != [] {
      ProjectSelf(s, ms[0]);
      ElementsSelf(s, ms[1..]);
    }
  }
}
