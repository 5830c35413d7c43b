/** Bitwise operators on unsigned words, as the C++ operators act on the binary
    digits of their operands. */
module Bits {
  import opened Arith

  function And(x: nat, y: nat): (r: nat)
    ensures r <= x && r <= y
  {
    if x == 0 || y == 0 then 0 else (x % 2) * (y % 2) + 2 * And(x / 2, y / 2)
  }

  function Or(x: nat, y: nat): (r: nat)
    decreases x + y
  {
    if x == 0 && y == 0 then 0
    else (if x % 2 == 1 || y % 2 == 1 then 1 else 0) + 2 * Or(x / 2, y / 2)
  }

  function Xor(x: nat, y: nat): (r: nat)
    decreases x + y
  {
    if x == 0 && y == 0 then 0 else (x + y) % 2 + 2 * Xor(x / 2, y / 2)
  }

  function Shr(x: nat, k: nat): (r: nat)
    decreases x, k
  {
    if k == 0 then x else Shr(x / 2, k - 1)
  }

  function Shl(x: nat, k: nat): (r: nat)
    decreases k
  {
    if k == 0 then x else Shl(2 * x, k - 1)
  }

  lemma {:induction false} ShrIsDiv(x: nat, k: nat)
    ensures Shr(x, k) == x / Pow2(k)
    decreases k
  {
    if k > 0 {
      ShrIsDiv(x / 2, k - 1);
      DivDiv(x, 2, Pow2(k - 1));
    }
  }

  /** The low k binary digits of x. */
  function Low(x: nat, k: nat): (r: nat)
    decreases x, k
  {
    if k == 0 then 0 else x % 2 + 2 * Low(x / 2, k - 1)
  }

  lemma {:induction false} LowIsMod(x: nat, k: nat)
    ensures Low(x, k) == x % Pow2(k)
    decreases k
  {
    if k > 0 {
      LowIsMod(x / 2, k - 1);
      LowDigits(x, Pow2(k - 1));
    }
  }

  /** The digits of an exclusive or, low digit first. */
  lemma {:induction false} XorDigits(x: nat, y: nat)
    ensures Xor(x, y) % 2 == (x + y) % 2
    ensures Xor(x, y) / 2 == Xor(x / 2, y / 2)
  {
    Cons((x + y) % 2, Xor(x / 2, y / 2));
  }

  lemma Cons(d: nat, q: nat)
    requires d < 2
    ensures (d + 2 * q) % 2 == d && (d + 2 * q) / 2 == q
  {
  }

  /** A number is determined by its low digit and the rest. */
  lemma FromDigits(x: nat, y: nat)
    requires x % 2 == y % 2 && x / 2 == y / 2
    ensures x == y
  {
  }

  lemma {:induction false} OrRange(x: nat, y: nat, k: nat)
    requires x < Pow2(k) && y < Pow2(k)
    ensures Or(x, y) < Pow2(k)
  {
    if k > 0 && (x > 0 || y > 0) {
      OrRange(x / 2, y / 2, k - 1);
    }
  }

  lemma {:induction false} XorRange(x: nat, y: nat, k: nat)
    requires x < Pow2(k) && y < Pow2(k)
    ensures Xor(x, y) < Pow2(k)
  {
    if k > 0 && (x > 0 || y > 0) {
      XorRange(x / 2, y / 2, k - 1);
    }
  }

  lemma {:induction false} XorZero(x: nat)
    ensures Xor(x, 0) == x
  {
    if x > 0 {
      XorZero(x / 2);
    }
  }

  /** Exclusive or undoes itself. */
  lemma {:induction false} XorCancel(x: nat, y: nat)
    ensures Xor(x, Xor(x, y)) == y
    decreases x + y
  {
    if x > 0 || y > 0 {
      var z := Xor(x, y);
      XorDigits(x, y);
      XorDigits(x, z);
      Parity(x, y, z);
      assert Xor(x / 2, z / 2) == y / 2 by {
        XorCancel(x / 2, y / 2);
      }
      FromDigits(Xor(x, z), y);
    }
  }

  lemma Parity(x: nat, y: nat, z: nat)
    requires z % 2 == (x + y) % 2
    ensures (x + z) % 2 == y % 2
  {
  }

  lemma {:induction false} XorCommutes(x: nat, y: nat)
    ensures Xor(x, y) == Xor(y, x)
    decreases x + y
  {
    if x > 0 || y > 0 {
      XorCommutes(x / 2, y / 2);
    }
  }

  lemma {:induction false} XorEqual(x: nat, y: nat)
    ensures Xor(x, y) == 0 <==> x == y
    decreases x + y
  {
    if x > 0 || y > 0 {
      XorEqual(x / 2, y / 2);
    }
  }

  lemma {:induction false} XorOnes(x: nat, k: nat)
    requires x < Pow2(k)
    ensures Xor(x, Pow2(k) - 1) == Pow2(k) - 1 - x
  {
    hide Xor;
    if k == 0 {
      XorZero(0);
    } else {
      var ones, p := Pow2(k) - 1, Pow2(k - 1);
      Complement(x, p);
      XorOnes(x / 2, k - 1);
      Cons(1, p - 1);
      XorDigits(x, ones);
      FromDigits(Xor(x, ones), ones - x);
    }
  }

  lemma Complement(x: nat, p: nat)
    requires x < 2 * p
    ensures (2 * p - 1 - x) % 2 == (x + (2 * p - 1)) % 2
    ensures (2 * p - 1 - x) / 2 == p - 1 - x / 2
  {
  }

  lemma {:induction false} OrZero(x: nat, y: nat)
    ensures Or(x, 0) == x && Or(0, x) == x
    ensures Or(x, y) == 0 <==> x == 0 && y == 0
    decreases x + y
  {
    if x > 0 {
      OrZero(x / 2, y / 2);
    } else if y > 0 {
      OrZero(x / 2, y / 2);
    }
  }

  lemma {:induction false} AndDigits(x: nat, y: nat)
    ensures And(x, y) % 2 == (x % 2) * (y % 2)
    ensures And(x, y) / 2 == And(x / 2, y / 2)
  {
    Cons((x % 2) * (y % 2), And(x / 2, y / 2));
  }

  lemma AndOdd(x: nat, q: nat)
    ensures And(x, 2 * q + 1) % 2 == x % 2 && And(x, 2 * q + 1) / 2 == And(x / 2, q)
  {
    hide And;
    Cons(1, q);
    AndDigits(x, 2 * q + 1);
  }

  lemma NoDigits(x: nat)
    ensures And(x, 0) == 0 && Low(x, 0) == 0
  {
  }

  lemma LowStep(x: nat, k: nat)
    requires k > 0
    ensures Low(x, k) == x % 2 + 2 * Low(x / 2, k - 1)
  {
  }

  /** Masking with k ones keeps the low k digits. */
  lemma {:induction false} AndOnes(x: nat, k: nat)
    ensures And(x, Pow2(k) - 1) == Low(x, k)
  {
    hide And, Low;
    if k == 0 {
      NoDigits(x);
    } else {
      var p := Pow2(k - 1);
      AndOdd(x, p - 1);
      AndOnes(x / 2, k - 1);
      LowStep(x, k);
      Cons(x % 2, Low(x / 2, k - 1));
      FromDigits(And(x, 2 * p - 1), Low(x, k));
    }
  }

  lemma AndMask(x: nat, k: nat)
    ensures And(x, Pow2(k) - 1) == x % Pow2(k)
  {
    AndOnes(x, k);
    LowIsMod(x, k);
  }

  lemma LowDigits(x: nat, p: nat)
    requires p > 0
    ensures x % (2 * p) == x % 2 + 2 * ((x / 2) % p)
  {
    var q, r := (x / 2) / p, (x / 2) % p;
    assert q * (2 * p) == 2 * (q * p);
    assert x / 2 == q * p + r;
    DivModUnique(x, q, 2 * r + x % 2, 2 * p);
  }

  /** Shifting a conjunction right shifts both operands. */
  lemma {:induction false} AndShift(x: nat, y: nat, k: nat)
    ensures Shr(And(x, y), k) == And(Shr(x, k), Shr(y, k))
  {
    if k > 0 {
      AndDigits(x, y);
      AndShift(x / 2, y / 2, k - 1);
    }
  }

  /** The low digits of a conjunction depend on the low digits of both operands. */
  lemma {:induction false} AndLow(x: nat, y: nat, k: nat)
    ensures Low(And(x, y), k) == And(Low(x, k), Low(y, k))
  {
    hide And, Low;
    if k == 0 {
      NoDigits(x);
      NoDigits(y);
      NoDigits(And(x, y));
      NoDigits(0);
    } else {
      AndDigits(x, y);
      AndLow(x / 2, y / 2, k - 1);
      LowStep(x, k);
      LowStep(y, k);
      LowStep(And(x, y), k);
      Cons(x % 2, Low(x / 2, k - 1));
      Cons(y % 2, Low(y / 2, k - 1));
      Cons(And(x, y) % 2, Low(And(x, y) / 2, k - 1));
      AndDigits(Low(x, k), Low(y, k));
      FromDigits(Low(And(x, y), k), And(Low(x, k), Low(y, k)));
    }
  }

  lemma HalfOfSum(x0: nat, p: nat, x1: nat)
    ensures (x0 + (2 * p) * x1) / 2 == x0 / 2 + p * x1
    ensures (x0 + (2 * p) * x1) % 2 == x0 % 2
  {
    assert (2 * p) * x1 == 2 * (p * x1);
  }

  /** On words with no common digit position the disjunction is the sum. */
  lemma {:induction false} OrDisjoint(x: nat, y: nat, k: nat)
    requires x < Pow2(k)
    ensures Or(x, Pow2(k) * y) == x + Pow2(k) * y
    ensures Or(Pow2(k) * y, x) == x + Pow2(k) * y
  {
    if k == 0 {
      OrZero(y, 0);
    } else {
      var p := Pow2(k - 1);
      OrDisjoint(x / 2, y, k - 1);
      HalfOfSum(0, p, y);
      if x == 0 && Pow2(k) * y == 0 {
      }
    }
  }
}
