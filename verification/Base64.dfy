/** base64_decode: accepts exactly the canonical encodings of section 4 of RFC 4648. */
module Base64 {
  import opened Arith
  import opened Options
  import Bits

  type Sextet = x: int | 0 <= x < 64

  // ----- the encoding -----

  function Digit(v: Sextet): (c: char)
  {
    if v < 26 then 'A' + v as char
    else if v < 52 then 'a' + (v - 26) as char
    else if v < 62 then '0' + (v - 52) as char
    else if v == 62 then '+' else '/'
  }

  /** One to three bytes as four characters. */
  function EncodeGroup(b: seq<Byte>): (s: string)
    requires 1 <= |b| <= 3
    ensures |s| == 4
  {
    if |b| == 1 then [Digit(b[0] / 4), Digit(b[0] % 4 * 16), '=', '=']
    else if |b| == 2 then [Digit(b[0] / 4), Digit(b[0] % 4 * 16 + b[1] / 16), Digit(b[1] % 16 * 4), '=']
    else [Digit(b[0] / 4), Digit(b[0] % 4 * 16 + b[1] / 16), Digit(b[1] % 16 * 4 + b[2] / 64), Digit(b[2] % 64)]
  }

  function Encode(b: seq<Byte>): (s: string)
  {
    if b == [] then []
    else if |b| <= 3 then EncodeGroup(b)
    else EncodeGroup(b[..3]) + Encode(b[3..])
  }

  // ----- the decoder -----

  /** -1 for a character outside the alphabet. */
  function Value(c: char): (v: int)
    ensures -1 <= v < 64
  {
    if 'A' <= c <= 'Z' then (c - 'A') as int
    else if 'a' <= c <= 'z' then (c - 'a') as int + 26
    else if '0' <= c <= '9' then (c - '0') as int + 52
    else if c == '+' then 62
    else if c == '/' then 63
    else -1
  }

  lemma ValueDigit(c: char, v: Sextet)
    ensures Value(c) == v <==> c == Digit(v)
    ensures Digit(v) != '='
  {
  }

  /** One group of four characters; padding is accepted only in the last one, and only
      over zero bits. */
  function Group(c0: char, c1: char, c2: char, c3: char, last: bool): (r: Option<seq<Byte>>)
  {
    var v0, v1 := Value(c0), Value(c1);
    if v0 < 0 || v1 < 0 then None
    else
      var b0: Byte := 4 * v0 + v1 / 16;
      if c2 == '=' then
        if !last || c3 != '=' || v1 % 16 != 0 then None else Some([b0])
      else
        var v2 := Value(c2);
        if v2 < 0 then None
        else
          var b1: Byte := v1 % 16 * 16 + v2 / 4;
          if c3 == '=' then
            if !last || v2 % 4 != 0 then None else Some([b0, b1])
          else
            var v3 := Value(c3);
            if v3 < 0 then None else Some([b0, b1, v2 % 4 * 64 + v3])
  }

  function Decode(t: string): (r: Option<seq<Byte>>)
  {
    if t == [] then Some([])
    else if |t| < 4 then None
    else
      match Group(t[0], t[1], t[2], t[3], |t| == 4)
      case None => None
      case Some(x) =>
        (match Decode(t[4..])
         case None => None
         case Some(rest) => Some(x + rest))
  }

  lemma GroupSound(c0: char, c1: char, c2: char, c3: char, last: bool)
    ensures var r := Group(c0, c1, c2, c3, last);
            r.Some? ==> 1 <= |r.value| <= 3 && (|r.value| < 3 ==> last) && EncodeGroup(r.value) == [c0, c1, c2, c3]
  {
    hide Digit, Value;
    var v0, v1, v2, v3 := Value(c0), Value(c1), Value(c2), Value(c3);
    if v0 >= 0 { ValueDigit(c0, v0); }
    if v1 >= 0 { ValueDigit(c1, v1); }
    if v2 >= 0 { ValueDigit(c2, v2); }
    if v3 >= 0 { ValueDigit(c3, v3); }
  }

  lemma GroupComplete(b: seq<Byte>, last: bool)
    requires 1 <= |b| <= 3 && (|b| < 3 ==> last)
    ensures var s := EncodeGroup(b); Group(s[0], s[1], s[2], s[3], last) == Some(b)
  {
    hide Digit, Value;
    ValueDigit(Digit(b[0] / 4), b[0] / 4);
    var b1 := if |b| > 1 then b[1] else 0;
    var b2 := if |b| > 2 then b[2] else 0;
    var d1: Sextet, d2: Sextet, d3: Sextet := b[0] % 4 * 16 + b1 / 16, b1 % 16 * 4 + b2 / 64, b2 % 64;
    ValueDigit(Digit(d1), d1);
    assert d1 / 16 == b[0] % 4 && d1 % 16 == b1 / 16;
    assert d2 / 4 == b1 % 16 && d2 % 4 == b2 / 64;
    ValueDigit(Digit(d2), d2);
    ValueDigit(Digit(d3), d3);
    var s := EncodeGroup(b);
    assert |b| == 1 ==> b == [b[0]];
    assert |b| == 2 ==> b == [b[0], b[1]];
    assert |b| == 3 ==> b == [b[0], b[1], b[2]];
    assert s[0] == Digit(b[0] / 4) && s[1] == Digit(d1);
    assert |b| > 1 ==> s[2] == Digit(d2);
    assert |b| > 2 ==> s[3] == Digit(d3);
  }

  lemma {:induction false} DecodeSound(t: string)
    ensures Decode(t).Some? ==> Encode(Decode(t).value) == t
    decreases |t|
  {
    hide Group, EncodeGroup;
    if |t| >= 4 {
      GroupSound(t[0], t[1], t[2], t[3], |t| == 4);
      DecodeSound(t[4..]);
      assert t == [t[0], t[1], t[2], t[3]] + t[4..];
      var x, rest := Group(t[0], t[1], t[2], t[3], |t| == 4), Decode(t[4..]);
      if x.Some? && rest.Some? {
        if |t| == 4 {
          assert x.value + [] == x.value;
        } else {
          assert rest.value != [];
          assert (x.value + rest.value)[..3] == x.value && (x.value + rest.value)[3..] == rest.value;
        }
      }
    }
  }

  lemma {:induction false} DecodeComplete(b: seq<Byte>)
    ensures Decode(Encode(b)) == Some(b)
    decreases |b|
  {
    hide Group, EncodeGroup;
    if b != [] {
      var s := Encode(b);
      var g := if |b| <= 3 then b else b[..3];
      var rest := b[|g|..];
      assert b == g + rest;
      NotEmpty(rest);
      assert s == EncodeGroup(g) + Encode(rest);
      assert s[4..] == Encode(rest);
      GroupComplete(g, |s| == 4);
      DecodeComplete(rest);
    }
  }

  lemma NotEmpty(b: seq<Byte>)
    ensures Encode(b) == [] <==> b == []
  {
    hide EncodeGroup;
  }

  /** The decoder accepts a text exactly when it is the encoding of what it returns. */
  lemma DecodeInverse(t: string, b: seq<Byte>)
    ensures Decode(t) == Some(b) <==> t == Encode(b)
  {
    hide Decode, Encode;
    DecodeSound(t);
    DecodeComplete(b);
  }

  // ----- the loop -----

  lemma Disjoint(high: nat, low: nat, k: nat)
    requires low < Pow2(k)
    ensures Bits.Or(Pow2(k) * high, low) == Pow2(k) * high + low
  {
    Bits.OrDisjoint(low, high, k);
  }

  lemma FirstByte(v0: Sextet, v1: Sextet)
    ensures Bits.Or(4 * v0, v1 / 16) % 0x100 == 4 * v0 + v1 / 16
  {
    hide Bits.Or;
    assert Pow2(2) == 4;
    Disjoint(v0, v1 / 16, 2);
  }

  lemma SecondByte(v1: Sextet, v2: Sextet)
    ensures Bits.Or(16 * v1, v2 / 4) % 0x100 == v1 % 16 * 16 + v2 / 4
  {
    hide Bits.Or;
    assert Pow2(4) == 16;
    Disjoint(v1, v2 / 4, 4);
    DivModUnique(16 * v1 + v2 / 4, v1 / 16, v1 % 16 * 16 + v2 / 4, 0x100);
  }

  lemma ThirdByte(v2: Sextet, v3: Sextet)
    ensures Bits.Or(64 * v2, v3) % 0x100 == v2 % 4 * 64 + v3
  {
    hide Bits.Or;
    assert Pow2(6) == 64;
    Disjoint(v2, v3, 6);
    DivModUnique(64 * v2 + v3, v2 / 4, v2 % 4 * 64 + v3, 0x100);
  }

  /** One round of the loop. */
  method DecodeGroup(c0: char, c1: char, c2: char, c3: char, last: bool) returns (ok: bool, out: seq<Byte>)
    ensures Group(c0, c1, c2, c3, last) == if ok then Some(out) else None
  {
    hide Value, Bits.Or, Pow2;
    var v0, v1 := Value(c0), Value(c1);
    if v0 < 0 || v1 < 0 {
      return false, [];
    }
    FirstByte(v0, v1);
    out := [Bits.Or(4 * v0, v1 / 16) % 0x100];
    if c2 == '=' {
      if !last || c3 != '=' || v1 % 16 != 0 {
        return false, [];
      }
      return true, out;
    }
    var v2 := Value(c2);
    if v2 < 0 {
      return false, [];
    }
    SecondByte(v1, v2);
    out := out + [Bits.Or(16 * v1, v2 / 4) % 0x100];
    assert out == [4 * v0 + v1 / 16, v1 % 16 * 16 + v2 / 4];
    if c3 == '=' {
      if !last || v2 % 4 != 0 {
        return false, [];
      }
      return true, out;
    }
    var v3 := Value(c3);
    if v3 < 0 {
      return false, [];
    }
    ThirdByte(v2, v3);
    out := out + [Bits.Or(64 * v2, v3) % 0x100];
    assert out == [4 * v0 + v1 / 16, v1 % 16 * 16 + v2 / 4, v2 % 4 * 64 + v3];
    ok := true;
  }

  /** base64_decode: succeeds exactly on encodings, with the bytes encoded. */
  method DecodeText(text: string) returns (ok: bool, out: seq<Byte>)
    ensures ok ==> text == Encode(out)
    ensures !ok ==> out == [] && forall b :: text != Encode(b)
  {
    hide Group, Encode, Decode;
    out, ok := [], true;
    var n := |text|;
    if n % 4 != 0 {
      Ragged(text);
      Refuse(text);
      return false, [];
    }
    var i := 0;
    assert text[0..] == text;
    PrependNothing(Decode(text));
    while i < n
      invariant 0 <= i <= n && i % 4 == 0
      invariant Decode(text) == Prepend(out, Decode(text[i..]))
    {
      var good, x := DecodeGroup(text[i], text[i + 1], text[i + 2], text[i + 3], i + 4 == n);
      Unfold(text, i);
      PrependTwice(out, x, Decode(text[i + 4..]));
      if !good {
        Refuse(text);
        return false, [];
      }
      out := out + x;
      i := i + 4;
    }
    NothingLeft();
    assert text[i..] == [] && out + [] == out;
    DecodeInverse(text, out);
  }

  lemma NothingLeft()
    ensures Decode([]) == Some([])
  {
  }

  lemma PrependNothing(r: Option<seq<Byte>>)
    ensures Prepend([], r) == r
  {
    assert r.Some? ==> [] + r.value == r.value;
  }

  lemma PrependTwice(a: seq<Byte>, x: seq<Byte>, r: Option<seq<Byte>>)
    ensures Prepend(a, Prepend(x, r)) == Prepend(a + x, r)
  {
    assert r.Some? ==> a + (x + r.value) == a + x + r.value;
  }

  ghost function Prepend(a: seq<Byte>, r: Option<seq<Byte>>): (o: Option<seq<Byte>>)
  {
    match r
    case None => None
    case Some(b) => Some(a + b)
  }

  lemma Unfold(t: string, i: nat)
    requires i + 4 <= |t|
    ensures var g := Group(t[i], t[i + 1], t[i + 2], t[i + 3], i + 4 == |t|);
            Decode(t[i..]) == if g.None? then None else Prepend(g.value, Decode(t[i + 4..]))
  {
    hide Group;
    assert t[i..][4..] == t[i + 4..];
  }

  lemma {:induction false} Ragged(t: string)
    requires |t| % 4 != 0
    ensures Decode(t).None?
    decreases |t|
  {
    hide Group;
    if |t| >= 4 {
      Ragged(t[4..]);
    }
  }

  lemma Refuse(t: string)
    requires Decode(t).None?
    ensures forall b :: t != Encode(b)
  {
    hide Decode, Encode;
    forall b ensures t != Encode(b) {
      DecodeInverse(t, b);
    }
  }
}
