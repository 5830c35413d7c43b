/** Arithmetic modulo 2^255 - 19 on sixteen 64-bit limbs, updated in place.
    The limb type is the program's int64; every value stored or named is checked
    against its range. */
module Field25519 {
  import opened Arith
  import opened Limbs

  /** The field element a limb array stands for. */
  ghost function Fe(a: array<I64>): (x: int)
    reads a
  {
    Val(a[..]) % P
  }

  /** Limb bound of a sum or difference of two products. */
  const MID: int := 131146

  ghost predicate IsLoose(a: array<I64>)
    reads a
  {
    Loose(a[..])
  }

  ghost predicate IsMid(a: array<I64>)
    reads a
  {
    Within(a[..], -MID, MID)
  }

  function FAdd(x: int, y: int): (r: int) { (x + y) % P }
  function FSub(x: int, y: int): (r: int) { (x - y) % P }
  function FMul(x: int, y: int): (r: int) { (x * y) % P }

  method Car25519(o: array<I64>)
    requires Within(o[..], -BOUND0, BOUND0)
    modifies o
    ensures o[..] == Car(old(o[..]))
  {
    ghost var s := o[..];
    for i := 0 to 16
      invariant o.Length == 16
      invariant forall k :: (if i == 16 then 1 else 0) <= k < i ==> o[k] == Reduced(s, k)
      invariant i < 16 ==> o[i] == s[i] + Carry(s, i)
      invariant i == 16 ==> o[0] == Reduced(s, 0) + 38 * Carry(s, 16)
      invariant forall k :: i < k < 16 ==> o[k] == s[k]
    {
      CarryBound(s, i);
      CarryBound(s, i + 1);
      o[i] := o[i] + 0x1_0000;
      var c: I64 := o[i] / 0x1_0000;
      assert c - 1 == Carry(s, i + 1);
      var target := if i < 15 then i + 1 else 0;
      var wrapped: I64 := if i == 15 then 37 * (c - 1) else 0;
      var back: I64 := c * 65536;
      o[target] := o[target] + (c - 1 + wrapped);
      o[i] := o[i] - back;
    }
  }

  method Copy(o: array<I64>, a: array<I64>)
    requires o.Length == 16 && a.Length >= 16
    modifies o
    ensures o[..] == old(a[..16])
  {
    for i := 0 to 16
      invariant forall k :: 0 <= k < i ==> o[k] == old(a[k])
      invariant forall k :: i <= k < 16 ==> a[k] == old(a[k])
    {
      o[i] := a[i];
    }
  }

  method Add(o: array<I64>, a: array<I64>, b: array<I64>)
    requires o.Length == 16 && IsLoose(a) && IsLoose(b)
    modifies o
    ensures IsMid(o)
    ensures Fe(o) == FAdd(old(Fe(a)), old(Fe(b)))
  {
    ghost var s, t := a[..], b[..];
    for i := 0 to 16
      invariant forall k :: i <= k < 16 ==> a[k] == s[k] && b[k] == t[k]
      invariant forall k :: 0 <= k < i ==> o[k] == s[k] + t[k]
    {
      o[i] := a[i] + b[i];
    }
    ValSum(s, t, o[..], 1);
    ModAdd(Val(s), Val(t), P);
  }

  method Sub(o: array<I64>, a: array<I64>, b: array<I64>)
    requires o.Length == 16 && IsLoose(a) && IsLoose(b)
    modifies o
    ensures IsMid(o)
    ensures Fe(o) == FSub(old(Fe(a)), old(Fe(b)))
  {
    ghost var s, t := a[..], b[..];
    for i := 0 to 16
      invariant forall k :: i <= k < 16 ==> a[k] == s[k] && b[k] == t[k]
      invariant forall k :: 0 <= k < i ==> o[k] == s[k] - t[k]
    {
      o[i] := a[i] - b[i];
    }
    ValSum(s, t, o[..], -1);
    ModSub(Val(s), Val(t), P);
  }

  lemma {:induction false} ValSum(s: seq<int>, t: seq<int>, u: seq<int>, sign: int)
    requires |s| == |t| == |u|
    requires sign == 1 || sign == -1
    requires forall i :: 0 <= i < |s| ==> u[i] == s[i] + sign * t[i]
    ensures Val(u) == Val(s) + sign * Val(t)
  {
    if s != [] {
      ValSum(s[1..], t[1..], u[1..], sign);
    }
  }

  // ----- multiplication -----

  const CELL: int := 17_199_273_316  // MID * MID

  ghost predicate CellsWithin(t: array<I64>, hi: int)
    reads t
  {
    t.Length == 31 && forall k :: 0 <= k < 31 ==> -hi <= t[k] <= hi
  }

  /** The schoolbook product of two limb vectors. */
  method Product(a: array<I64>, b: array<I64>) returns (t: array<I64>)
    requires IsMid(a) && IsMid(b)
    ensures fresh(t) && CellsWithin(t, 16 * CELL)
    ensures Val(t[..]) == Val(a[..]) * Val(b[..])
  {
    t := new I64[31];
    for i := 0 to 31
      invariant forall k :: 0 <= k < i ==> t[k] == 0
    {
      t[i] := 0;
    }
    ValZero(t[..]);
    for i := 0 to 16
      invariant Val(t[..]) == Val(a[..i]) * Val(b[..])
      invariant CellsWithin(t, i * CELL)
    {
      AddRow(t, a[i], i, b, i * CELL);
      assert a[..i + 1] == a[..i] + [a[i]];
      ValSnoc(a[..i], a[i]);
      DistributeRow(Val(a[..i]), a[i], Radix(i), Val(b[..]));
    }
    assert a[..16] == a[..];
  }

  /** The inner loop of the product: row i of the schoolbook scheme. */
  method AddRow(t: array<I64>, x: I64, i: nat, b: array<I64>, ghost hi: int)
    requires t != b && i < 16 && IsMid(b) && -MID <= x <= MID
    requires 0 <= hi <= 15 * CELL && CellsWithin(t, hi)
    modifies t
    ensures Val(t[..]) == old(Val(t[..])) + x * Radix(i) * Val(b[..])
    ensures CellsWithin(t, hi + CELL)
  {
    ghost var v := Val(t[..]);
    for j := 0 to 16
      invariant Val(t[..]) == v + x * Radix(i) * Val(b[..j])
      invariant CellsWithin(t, hi + CELL)
      invariant forall k :: i + j <= k < 31 ==> -hi <= t[k] <= hi
    {
      CellBound(x, b[j]);
      var cell: I64 := x * b[j];
      ghost var s := t[..];
      t[i + j] := t[i + j] + cell;
      assert t[..] == s[i + j := s[i + j] + cell];
      RowStep(s, b[..], x, i, j, v);
      assert b[..][..j] == b[..j] && b[..][..j + 1] == b[..j + 1];
    }
    assert b[..16] == b[..];
  }

  /** One cell of the row adds one limb of b to the running sum. */
  lemma RowStep(s: seq<int>, b: seq<int>, x: int, i: nat, j: nat, v: int)
    requires |b| == 16 && i < 16 && j < 16 && i + j < |s|
    requires Val(s) == v + x * Radix(i) * Val(b[..j])
    ensures Val(s[i + j := s[i + j] + x * b[j]]) == v + x * Radix(i) * Val(b[..j + 1])
  {
    ValUpdate(s, i + j, x * b[j]);
    assert b[..j + 1] == b[..j] + [b[j]];
    ValSnoc(b[..j], b[j]);
    RadixAdd(i, j);
    DistributeCell(x, b[j], Radix(i), Radix(j), Val(b[..j]));
  }

  lemma {:induction false} ValZero(s: seq<int>)
    requires forall k :: 0 <= k < |s| ==> s[k] == 0
    ensures Val(s) == 0
  {
    if s != [] {
      ValZero(s[1..]);
    }
  }

  lemma CellBound(x: int, y: int)
    requires -MID <= x <= MID && -MID <= y <= MID
    ensures -CELL <= x * y <= CELL
  {
    if 0 <= x == 0 <= y {
      MulBound(if 0 <= x then x else -x, if 0 <= y then y else -y, MID, MID);
    } else {
      MulBound(if 0 <= x then x else -x, if 0 <= y then y else -y, MID, MID);
    }
  }

  lemma DistributeRow(v: int, x: int, r: int, w: int)
    ensures (v + x * r) * w == v * w + x * r * w
  {
  }

  lemma DistributeCell(x: int, y: int, r: int, q: int, w: int)
    ensures x * r * (w + y * q) == x * r * w + (x * y) * (r * q)
  {
    calc {
      x * r * (w + y * q);
      x * r * w + x * r * (y * q);
      x * r * w + (x * y) * (r * q);
    }
  }

  method Mul(o: array<I64>, a: array<I64>, b: array<I64>)
    requires o.Length == 16 && IsMid(a) && IsMid(b)
    modifies o
    ensures IsLoose(o) && IsMid(o)
    ensures Fe(o) == FMul(old(Fe(a)), old(Fe(b)))
  {
    var t := Product(a, b);
    ghost var product := t[..];
    Fold(t);
    Copy(o, t);
    FoldValue(product, o[..]);
    CarryTwice(o);
    ModMul(old(Val(a[..])), old(Val(b[..])), P);
  }

  /** The loop that folds limbs 16..30 onto limbs 0..14. */
  method Fold(t: array<I64>)
    requires CellsWithin(t, 16 * CELL)
    modifies t
    ensures CellsWithin(t, 39 * 16 * CELL)
    ensures Folded(old(t[..]), t[..16])
  {
    for i := 0 to 15
      invariant forall k :: 0 <= k < i ==> t[k] == old(t[k]) + 38 * old(t[k + 16])
      invariant forall k :: i <= k < 31 ==> t[k] == old(t[k])
    {
      var high: I64 := 38 * t[i + 16];
      t[i] := t[i] + high;
    }
  }

  method Sqr(o: array<I64>, a: array<I64>)
    requires o.Length == 16 && IsMid(a)
    modifies o
    ensures IsLoose(o) && IsMid(o)
    ensures Fe(o) == FMul(old(Fe(a)), old(Fe(a)))
  {
    Mul(o, a, a);
  }

  method CarryTwice(o: array<I64>)
    requires Within(o[..], -BOUND0, BOUND0)
    modifies o
    ensures IsLoose(o) && IsMid(o)
    ensures Fe(o) == old(Fe(o))
  {
    FirstPass(o[..]);
    CarValue(o[..]);
    Car25519(o);
    SecondPass(o[..]);
    CarValue(o[..]);
    FirstPassWithin(o[..]);
    Car25519(o);
  }

  lemma FirstPassWithin(s: seq<int>)
    requires Settled(s, -16 * BOUND1, 16 * BOUND1)
    ensures Within(s, -BOUND0, BOUND0)
  {
  }

  ghost predicate Folded(s: seq<int>, f: seq<int>)
  {
    && |s| == 31 && |f| == 16 && f[15] == s[15]
    && forall k :: 0 <= k < 15 ==> f[k] == s[k] + 38 * s[k + 16]
  }

  /** Folding the upper fifteen limbs down with weight 38 keeps the residue. */
  lemma FoldValue(s: seq<int>, f: seq<int>)
    requires Folded(s, f)
    ensures Val(f) % P == Val(s) % P
  {
    FoldParts(s, f);
    RadixTop();
    FoldWraps(Val(s), Val(s[..16]), Val(s[16..]), Radix(16), P);
  }

  lemma {:induction false} FoldParts(s: seq<int>, f: seq<int>)
    requires Folded(s, f)
    ensures Val(s) == Val(s[..16]) + Radix(16) * Val(s[16..])
    ensures Val(f) == Val(s[..16]) + 38 * Val(s[16..])
  {
    var lo, hi := s[..16], s[16..];
    assert s == lo + hi;
    ValAppend(lo, hi);
    ValSnoc(hi, 0);
    ValScaled(lo, hi + [0], f);
  }

  lemma FoldWraps(v: int, w: int, h: int, r: int, p: int)
    requires p > 0 && r == 2 * p + 38 && v == w + r * h
    ensures (w + 38 * h) % p == v % p
  {
    CarryWraps(v, w, h, p);
  }

  lemma {:induction false} ValScaled(s: seq<int>, t: seq<int>, u: seq<int>)
    requires |s| == |t| == |u|
    requires forall i :: 0 <= i < |s| ==> u[i] == s[i] + 38 * t[i]
    ensures Val(u) == Val(s) + 38 * Val(t)
  {
    if s != [] {
      ValScaled(s[1..], t[1..], u[1..]);
    }
  }
}
