/** X25519: the Montgomery ladder on limb arrays against section 5 of RFC 7748
    written over the integers modulo 2^255 - 19. */
module X25519 {
  import opened Arith
  import opened Limbs
  import opened Bytes
  import opened Field25519
  import opened Pack25519
  import Bits

  // ----- section 5 of RFC 7748 -----

  function Bit(k: nat, t: nat): (b: nat)
    ensures b == 0 || b == 1
  {
    Bits.Shr(k, t) % 2
  }

  /** decodeScalar25519: the clamped scalar. */
  function Clamp(n: seq<Byte>): (z: seq<int>)
    requires |n| == 32
    ensures |z| == 32 && forall i :: 0 <= i < 32 ==> z[i] >= 0
  {
    n[0 := Bits.And(n[0], 248)][31 := Bits.Or(Bits.And(n[31], 127), 64)]
  }

  /** decodeUCoordinate: the top bit is dropped. */
  function DecodeU(p: seq<Byte>): (u: int)
    requires |p| == 32
  {
    LeVal(p[31 := p[31] % 128])
  }

  datatype Rung = Rung(x2: int, z2: int, x3: int, z3: int)

  function CSwap(swap: int, r: Rung): (s: Rung)
  {
    if swap == 1 then Rung(r.x3, r.z3, r.x2, r.z2) else r
  }

  const A24: int := 121665

  function RfcStep(u: int, r: Rung): (s: Rung)
  {
    var A := FAdd(r.x2, r.z2);
    var AA := FMul(A, A);
    var B := FSub(r.x2, r.z2);
    var BB := FMul(B, B);
    var E := FSub(AA, BB);
    var C := FAdd(r.x3, r.z3);
    var D := FSub(r.x3, r.z3);
    var DA := FMul(D, A);
    var CB := FMul(C, B);
    Rung(FMul(AA, BB),
         FMul(E, FAdd(AA, FMul(A24, E))),
         FMul(FAdd(DA, CB), FAdd(DA, CB)),
         FMul(u, FMul(FSub(DA, CB), FSub(DA, CB))))
  }

  /** The ladder after its first n bits, and the swap it still owes. */
  function RfcLadder(k: nat, u: int, n: nat): (r: (Rung, int))
    requires n <= 255
    ensures r.1 == 0 || r.1 == 1
  {
    if n == 0 then (Rung(1, 0, u, 1), 0)
    else
      var prev := RfcLadder(k, u, n - 1);
      var bit := Bit(k, 255 - n);
      (RfcStep(u, CSwap(if prev.1 == bit then 0 else 1, prev.0)), bit)
  }

  function FPow(x: int, n: nat): (r: int)
  {
    if n == 0 then 1 else FMul(x, FPow(x, n - 1))
  }

  /** The function X25519(k, u), before encoding. */
  function RfcX25519(k: nat, u: int): (r: int)
  {
    var last := RfcLadder(k, u, 255);
    var s := CSwap(last.1, last.0);
    FMul(s.x2, FPow(s.z2, P - 2))
  }

  lemma RfcRange(k: nat, u: int)
    ensures 0 <= RfcX25519(k, u) < P
  {
    hide RfcLadder, FPow;
  }

  // ----- field facts -----

  lemma FMulAssoc(x: int, y: int, z: int)
    ensures FMul(FMul(x, y), z) == FMul(x, FMul(y, z))
  {
    MulModLeft(x * y, z, P);
    MulModLeft(y * z, x, P);
    assert x * y * z == y * z * x;
  }

  lemma MulModLeft(w: int, z: int, p: int)
    requires p > 0
    ensures ((w % p) * z) % p == (w * z) % p
    ensures (z * (w % p)) % p == (w * z) % p
  {
    var q, r := w / p, w % p;
    assert w * z == r * z + (q * z) * p by {
      assert w == q * p + r;
    }
    ModAddMultiple(r * z, q * z, p);
  }

  lemma SquareOfDifference(x: int, y: int)
    ensures FMul(FSub(x, y), FSub(x, y)) == FMul(FSub(y, x), FSub(y, x))
  {
    ModMul(x - y, x - y, P);
    ModMul(y - x, y - x, P);
    assert (x - y) * (x - y) == (y - x) * (y - x);
  }

  lemma {:induction false} FPowAdd(x: int, m: nat, n: nat)
    requires m > 0 && n > 0
    ensures FPow(x, m + n) == FMul(FPow(x, m), FPow(x, n))
  {
    if m == 1 {
      assert FPow(x, 1) == FMul(x, 1) == x % P;
      MulModLeft(x, FPow(x, n), P);
    } else {
      FPowAdd(x, m - 1, n);
      FMulAssoc(x, FPow(x, m - 1), FPow(x, n));
    }
  }

  // ----- inversion -----

  /** The exponent reached after n rounds of square and (mostly) multiply. */
  function InvExp(n: nat): (e: nat)
    ensures e > 0
  {
    if n == 0 then 1 else 2 * InvExp(n - 1) + (if n == 252 || n == 250 then 0 else 1)
  }

  lemma {:induction false} InvExpRun(n: nat)
    requires n <= 249
    ensures InvExp(n) == Pow2(n + 1) - 1
  {
    if n > 0 {
      InvExpRun(n - 1);
    }
  }

  lemma InvExpFinal()
    ensures InvExp(254) == P - 2
  {
    InvExpRun(249);
    assert InvExp(250) == 2 * InvExp(249);
    assert InvExp(251) == 2 * InvExp(250) + 1;
    assert InvExp(252) == 2 * InvExp(251);
    assert InvExp(253) == 2 * InvExp(252) + 1;
    assert InvExp(254) == 2 * InvExp(253) + 1;
    Pow2Values();
    Pow2Add(64, 64);
    Pow2Add(64, 32);
    Pow2Add(96, 26);
    Pow2Add(122, 128);
  }

  method Inv25519(o: array<I64>, a: array<I64>)
    requires o.Length == 16 && IsLoose(a) && IsMid(a)
    modifies o
    ensures IsLoose(o) && IsMid(o)
    ensures Fe(o) == FPow(old(Fe(a)), P - 2)
  {
    var c := new I64[16];
    Copy(c, a);
    assert c[..] == a[..];
    ghost var x := Fe(a);
    FPowOne(a[..]);
    for n := 0 to 254
      invariant IsLoose(c) && IsMid(c) && IsMid(a) && Fe(a) == x
      invariant Fe(c) == FPow(x, InvExp(n))
    {
      InvRound(c, a, n);
    }
    InvExpFinal();
    Copy(o, c);
    assert o[..] == c[..];
  }

  method InvRound(c: array<I64>, a: array<I64>, n: nat)
    requires c != a && IsMid(c) && IsMid(a) && n < 254
    requires Fe(c) == FPow(Fe(a), InvExp(n))
    modifies c
    ensures IsLoose(c) && IsMid(c)
    ensures Fe(c) == FPow(Fe(a), InvExp(n + 1))
  {
    var bit := 253 - n;
    FPowAdd(Fe(a), InvExp(n), InvExp(n));
    Sqr(c, c);
    if bit != 2 && bit != 4 {
      FMulComm(Fe(c), Fe(a));
      Mul(c, c, a);
    }
  }

  lemma FPowOne(s: seq<int>)
    ensures FPow(Val(s) % P, 1) == Val(s) % P
  {
    var x := Val(s) % P;
    assert FPow(x, 1) == FMul(x, 1) == x % P;
    DivModUnique(x, 0, x, P);
  }

  lemma FMulComm(x: int, y: int)
    ensures FMul(x, y) == FMul(y, x)
  {
  }

  // ----- the ladder -----

  /** The ladder state held in the four working arrays. */
  ghost function State(a: array<I64>, b: array<I64>, c: array<I64>, d: array<I64>): (r: Rung)
    reads a, b, c, d
  {
    Rung(Fe(a), Fe(c), Fe(b), Fe(d))
  }

  ghost predicate Ready(a: array<I64>, b: array<I64>, c: array<I64>, d: array<I64>)
    reads a, b, c, d
  {
    IsLoose(a) && IsLoose(b) && IsLoose(c) && IsLoose(d)
  }

  method SwapBoth(a: array<I64>, b: array<I64>, c: array<I64>, d: array<I64>, r: int)
    requires a != b && a != c && a != d && b != c && b != d && c != d
    requires Ready(a, b, c, d) && (r == 0 || r == 1)
    modifies a, b, c, d
    ensures Ready(a, b, c, d)
    ensures State(a, b, c, d) == CSwap(r, old(State(a, b, c, d)))
  {
    Sel25519(a, b, r);
    Sel25519(c, d, r);
  }

  ghost predicate Distinct(a: array<I64>, b: array<I64>, c: array<I64>, d: array<I64>, e: array<I64>, f: array<I64>)
  {
    && a != b && a != c && a != d && a != e && a != f
    && b != c && b != d && b != e && b != f
    && c != d && c != e && c != f && d != e && d != f && e != f
  }

  /** First half of a rung: leaves CB in a, DA in c, AA in d, BB in f. */
  method Cross(a: array<I64>, b: array<I64>, c: array<I64>, d: array<I64>, e: array<I64>, f: array<I64>)
    requires Distinct(a, b, c, d, e, f) && Ready(a, b, c, d) && e.Length == f.Length == 16
    modifies a, b, c, d, e, f
    ensures Ready(a, c, d, f)
    ensures var A, B := old(FAdd(Fe(a), Fe(c))), old(FSub(Fe(a), Fe(c)));
            && Fe(d) == FMul(A, A) && Fe(f) == FMul(B, B)
            && Fe(a) == FMul(old(FAdd(Fe(b), Fe(d))), B)
            && Fe(c) == FMul(old(FSub(Fe(b), Fe(d))), A)
  {
    Add(e, a, c);
    Sub(a, a, c);
    Add(c, b, d);
    Sub(b, b, d);
    Sqr(d, e);
    Sqr(f, a);
    Mul(a, c, a);
    Mul(c, b, e);
  }

  /** Second half of a rung, from CB in a, DA in c, AA in d, BB in f. */
  method Combine(a: array<I64>, b: array<I64>, c: array<I64>, d: array<I64>, e: array<I64>, f: array<I64>,
                 x: array<I64>, c121665: array<I64>)
    requires Distinct(a, b, c, d, e, f) && Ready(a, c, d, f) && b.Length == e.Length == 16
    requires x !in {a, b, c, d, e, f} && c121665 !in {a, b, c, d, e, f}
    requires IsMid(x) && IsMid(c121665)
    modifies a, b, c, d, e, f
    ensures Ready(a, b, c, d)
    ensures var CB, DA, AA, BB := old(Fe(a)), old(Fe(c)), old(Fe(d)), old(Fe(f));
            var E, S, T := FSub(AA, BB), FSub(CB, DA), FAdd(CB, DA);
            && Fe(a) == FMul(AA, BB)
            && Fe(c) == FMul(E, FAdd(FMul(E, Fe(c121665)), AA))
            && Fe(b) == FMul(T, T)
            && Fe(d) == FMul(FMul(S, S), Fe(x))
  {
    Add(e, a, c);
    Sub(a, a, c);
    Sqr(b, a);
    Sub(c, d, f);
    Mul(a, c, c121665);
    Add(a, a, d);
    Mul(c, c, a);
    Mul(a, d, f);
    Mul(d, b, x);
    Sqr(b, e);
  }

  /** One rung on the arrays is one rung of the RFC. */
  method Step(a: array<I64>, b: array<I64>, c: array<I64>, d: array<I64>, e: array<I64>, f: array<I64>,
              x: array<I64>, c121665: array<I64>)
    requires Distinct(a, b, c, d, e, f) && Ready(a, b, c, d) && e.Length == f.Length == 16
    requires x !in {a, b, c, d, e, f} && c121665 !in {a, b, c, d, e, f}
    requires IsMid(x) && IsMid(c121665) && Fe(c121665) == A24
    modifies a, b, c, d, e, f
    ensures Ready(a, b, c, d)
    ensures State(a, b, c, d) == RfcStep(Fe(x), old(State(a, b, c, d)))
  {
    LoosenLengths(a, b, c, d);
    Cross(a, b, c, d, e, f);
    ghost var CB, DA, AA, BB := Fe(a), Fe(c), Fe(d), Fe(f);
    Combine(a, b, c, d, e, f, x, c121665);
    SquareOfDifference(CB, DA);
    StepForms(CB, DA, AA, FSub(AA, BB), Fe(x));
  }

  lemma LoosenLengths(a: array<I64>, b: array<I64>, c: array<I64>, d: array<I64>)
    requires Ready(a, b, c, d)
    ensures a.Length == b.Length == c.Length == d.Length == 16
  {
  }

  /** The source's operand order against the RFC's. */
  lemma StepForms(CB: int, DA: int, AA: int, E: int, u: int)
    ensures FAdd(CB, DA) == FAdd(DA, CB)
    ensures FAdd(FMul(E, A24), AA) == FAdd(AA, FMul(A24, E))
    ensures FMul(FMul(FSub(DA, CB), FSub(DA, CB)), u) == FMul(u, FMul(FSub(DA, CB), FSub(DA, CB)))
  {
    FMulComm(E, A24);
    FMulComm(u, FMul(FSub(DA, CB), FSub(DA, CB)));
  }

  // ----- bytes in -----

  method Unpack25519(o: array<I64>, n: seq<Byte>)
    requires o.Length == 16 && |n| == 32
    modifies o
    ensures Within(o[..], 0, 65535)
    ensures Val(o[..]) == DecodeU(n)
  {
    for i := 0 to 16
      invariant forall k :: 0 <= k < i ==> o[k] == Word16(n[2 * k], n[2 * k + 1])
    {
      o[i] := Word16(n[2 * i], n[2 * i + 1]);
    }
    TopMask(n[30], n[31]);
    o[15] := Bits.And(o[15], 0x7fff);
    WordDigits(n, o[..]);
    BytesMatch(o[..], n[31 := n[31] % 128]);
    BytesOfValue(o[..]);
  }

  function Word16(lo: int, hi: int): (w: int) { lo + 256 * hi }

  lemma WordDigits(n: seq<Byte>, o: seq<int>)
    requires |n| == 32 && |o| == 16
    requires forall k :: 0 <= k < 15 ==> o[k] == Word16(n[2 * k], n[2 * k + 1])
    requires o[15] == Word16(n[30], n[31] % 128)
    ensures Within(o, 0, 65535)
    ensures var b := n[31 := n[31] % 128];
            && (forall k :: 0 <= k < 16 ==> b[2 * k] == o[k] % 256)
            && (forall k :: 0 <= k < 16 ==> b[2 * k + 1] == o[k] / 256)
  {
  }

  lemma TopMask(lo: Byte, hi: Byte)
    ensures Bits.And(Word16(lo, hi), 0x7fff) == Word16(lo, hi % 128)
  {
    Pow2Values();
    assert Pow2(7) == 128;
    Pow2Add(8, 7);
    Bits.AndMask(Word16(lo, hi), 15);
    DivModUnique(Word16(lo, hi), hi / 128, Word16(lo, hi % 128), 0x8000);
  }

  lemma {:induction false} ShrAdd(x: nat, i: nat, j: nat)
    ensures Bits.Shr(x, i + j) == Bits.Shr(Bits.Shr(x, i), j)
    decreases i
  {
    if i > 0 {
      ShrAdd(x / 2, i - 1, j);
    }
  }

  lemma {:induction false} LowBit(x: nat, y: nat, r: nat, w: nat)
    requires r < w
    ensures Bits.Shr(x + Pow2(w) * y, r) % 2 == Bits.Shr(x, r) % 2
    decreases r
  {
    Bits.HalfOfSum(x, Pow2(w - 1), y);
    if r > 0 {
      LowBit(x / 2, y, r - 1, w - 1);
    }
  }

  /** Bit i of the little-endian number is bit i mod 8 of byte i div 8. */
  lemma {:induction false} BitOfBytes(z: seq<int>, i: nat)
    requires forall k :: 0 <= k < |z| ==> 0 <= z[k] < 256
    requires i < 8 * |z|
    ensures LeVal(z) >= 0
    ensures Bit(LeVal(z), i) == Bits.Shr(z[i / 8], i % 8) % 2
  {
    hide Bits.Shr, Pow2;
    LeValNonNegative(z);
    LeValNonNegative(z[1..]);
    if i < 8 {
      Pow2Values();
      LowBit(z[0], LeVal(z[1..]), i, 8);
    } else {
      BitOfBytes(z[1..], i - 8);
      DropByte(z[0], LeVal(z[1..]), i);
      assert z[i / 8] == z[1..][(i - 8) / 8];
    }
  }

  lemma DropByte(x: nat, y: nat, i: nat)
    requires x < 256 && i >= 8
    ensures Bit(x + 256 * y, i) == Bit(y, i - 8)
  {
    ShrAdd(x + 256 * y, 8, i - 8);
    Bits.ShrIsDiv(x + 256 * y, 8);
    Pow2Values();
    DivModUnique(x + 256 * y, y, x, 256);
  }

  lemma ClampBytes(n: seq<Byte>)
    requires |n| == 32
    ensures forall k :: 0 <= k < 32 ==> 0 <= Clamp(n)[k] < 256
  {
    Pow2Values();
    Bits.OrRange(Bits.And(n[31], 127), 64, 8);
  }

  // ----- the whole function -----

  /** Scalar multiplication returns the bytes of the RFC result. */
  method Scalarmult(q: array<Byte>, n: seq<Byte>, p: seq<Byte>)
    requires q.Length == 32 && |n| == 32 && |p| == 32
    modifies q
    ensures LeVal(Clamp(n)) >= 0
    ensures LeVal(q[..]) == RfcX25519(LeVal(Clamp(n)), DecodeU(p) % P)
  {
    ClampBytes(n);
    LeValNonNegative(Clamp(n));
    var x, a, b, c, d := new I64[16], new I64[16], new I64[16], new I64[16], new I64[16];
    Unpack25519(x, p);
    Start(a, b, c, d, x);
    Ladder(a, b, c, d, x, Clamp(n));
    Finish(q, a, c);
  }

  /** The 255 rungs: the program swaps before and after each rung, the RFC carries one
      swap over to the next; the arrays always hold the RFC state with the owed swap done. */
  method Ladder(a: array<I64>, b: array<I64>, c: array<I64>, d: array<I64>, x: array<I64>, z: seq<int>)
    requires a != b && a != c && a != d && b != c && b != d && c != d && x !in {a, b, c, d}
    requires |z| == 32 && (forall k :: 0 <= k < 32 ==> 0 <= z[k] < 256) && LeVal(z) >= 0
    requires Ready(a, b, c, d) && IsMid(x) && State(a, b, c, d) == Rung(1, 0, Fe(x), 1)
    modifies a, b, c, d
    ensures Ready(a, b, c, d)
    ensures var l := RfcLadder(LeVal(z), Fe(x), 255); State(a, b, c, d) == CSwap(l.1, l.0)
  {
    hide RfcLadder, RfcStep, Bits.Shr;
    var e, f := new I64[16], new I64[16];
    var c121665 := Constant();
    ghost var k, u := LeVal(z), Fe(x);
    LadderStart(k, u);
    for i := 0 to 255
      invariant Ready(a, b, c, d)
      invariant IsMid(c121665) && Fe(c121665) == A24
      invariant var l := RfcLadder(k, u, i); State(a, b, c, d) == CSwap(l.1, l.0)
    {
      var t := 254 - i;
      BitOfBytes(z, t);
      var r := Bits.Shr(z[t / 8], t % 8) % 2;
      SwappedStep(a, b, c, d, e, f, x, c121665, r);
      OwedSwap(k, u, i);
    }
  }

  lemma LadderStart(k: nat, u: int)
    ensures RfcLadder(k, u, 0) == (Rung(1, 0, u, 1), 0)
  {
  }

  method SwappedStep(a: array<I64>, b: array<I64>, c: array<I64>, d: array<I64>, e: array<I64>, f: array<I64>,
                     x: array<I64>, c121665: array<I64>, r: int)
    requires Distinct(a, b, c, d, e, f) && Ready(a, b, c, d) && e.Length == f.Length == 16
    requires x !in {a, b, c, d, e, f} && c121665 !in {a, b, c, d, e, f}
    requires IsMid(x) && IsMid(c121665) && Fe(c121665) == A24 && (r == 0 || r == 1)
    modifies a, b, c, d, e, f
    ensures Ready(a, b, c, d)
    ensures State(a, b, c, d) == CSwap(r, RfcStep(Fe(x), CSwap(r, old(State(a, b, c, d)))))
  {
    SwapBoth(a, b, c, d, r);
    Step(a, b, c, d, e, f, x, c121665);
    SwapBoth(a, b, c, d, r);
  }

  /** Swapping before and after a rung is the RFC's single carried-over swap. */
  lemma OwedSwap(k: nat, u: int, i: nat)
    requires i < 255
    ensures var l, l' := RfcLadder(k, u, i), RfcLadder(k, u, i + 1);
            var r := Bit(k, 254 - i);
            CSwap(l'.1, l'.0) == CSwap(r, RfcStep(u, CSwap(r, CSwap(l.1, l.0))))
  {
    var l := RfcLadder(k, u, i);
    var r := Bit(k, 254 - i);
    assert CSwap(if l.1 == r then 0 else 1, l.0) == CSwap(r, CSwap(l.1, l.0));
  }

  method Constant() returns (k: array<I64>)
    ensures fresh(k) && IsMid(k) && Fe(k) == A24
  {
    k := new I64[16](i => if i == 0 then 0xDB41 else if i == 1 then 1 else 0);
    ConstantValue(k[..]);
  }

  lemma {:induction false} ConstantValue(s: seq<int>)
    requires |s| == 16 && s[0] == 0xDB41 && s[1] == 1
    requires forall i :: 2 <= i < 16 ==> s[i] == 0
    ensures Val(s) % P == A24
  {
    ValZero(s[1..][1..]);
    assert Val(s) == 0xDB41 + 65536 * (1 + 65536 * Val(s[1..][1..]));
    DivModUnique(A24, 0, A24, P);
  }

  /** The working arrays before the first rung: the point at infinity and u. */
  method Start(a: array<I64>, b: array<I64>, c: array<I64>, d: array<I64>, x: array<I64>)
    requires a != b && a != c && a != d && b != c && b != d && c != d && x !in {a, b, c, d}
    requires a.Length == b.Length == c.Length == d.Length == 16 && Within(x[..], 0, 65535)
    modifies a, b, c, d
    ensures Ready(a, b, c, d) && IsMid(x)
    ensures State(a, b, c, d) == Rung(1, 0, Fe(x), 1)
  {
    for i := 0 to 16
      invariant forall k :: 0 <= k < i ==> b[k] == x[k] && a[k] == 0 && c[k] == 0 && d[k] == 0
    {
      b[i] := x[i];
      d[i], a[i], c[i] := 0, 0, 0;
    }
    a[0], d[0] := 1, 1;
    assert b[..] == x[..];
    SmallValue(a[..]);
    SmallValue(c[..]);
    SmallValue(d[..]);
  }

  lemma {:induction false} SmallValue(s: seq<int>)
    requires |s| == 16 && (s[0] == 0 || s[0] == 1)
    requires forall i :: 1 <= i < 16 ==> s[i] == 0
    ensures Val(s) % P == s[0]
  {
    ValZero(s[1..]);
    DivModUnique(s[0], 0, s[0], P);
  }

  /** Divide x2 by z2 and write the canonical bytes. */
  method Finish(q: array<Byte>, a: array<I64>, c: array<I64>)
    requires q.Length == 32 && IsLoose(a) && IsLoose(c) && a != c
    modifies q
    ensures LeVal(q[..]) == FMul(Fe(a), FPow(Fe(c), P - 2))
  {
    var num, den := new I64[16], new I64[16];
    Copy(num, a);
    Copy(den, c);
    assert num[..] == a[..] && den[..] == c[..];
    Inv25519(den, den);
    Mul(num, num, den);
    Pack(q, num);
  }
}
