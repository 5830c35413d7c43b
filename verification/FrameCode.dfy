/** The varint routines and the two frame helpers as the program runs them. */
module FrameCode {
  import opened Arith
  import opened Options
  import opened FrameSpec
  import BudgetVarint
  import Wire
  import ProtoCode
  import Bits

  // ----- varints -----

  method VarintSize(value: U32) returns (n: nat)
    ensures n == |Wire.Varint(value)|
  {
    var v: nat := value;
    n := 1;
    while v >= 0x80
      invariant n - 1 + |Wire.Varint(v)| == |Wire.Varint(value)|
    {
      v := v / 0x80;
      n := n + 1;
    }
  }

  method AppendVarint(out: seq<Byte>, value: U32) returns (r: seq<Byte>)
    ensures r == out + Wire.Varint(value)
  {
    var v: nat := value;
    r := out;
    while v >= 0x80
      invariant r + Wire.Varint(v) == out + Wire.Varint(value)
    {
      ProtoCode.ContinuationByte(v);
      r := r + [Bits.Or(v % 0x100, 0x80)];
      v := v / 0x80;
    }
    r := r + [v];
  }

  /** The status of the whole, given the digits read so far and the status of the rest. */
  ghost function After(v: nat, i: nat, r: BudgetVarint.Status): (s: BudgetVarint.Status)
  {
    match r
    case Ok(w, n) => BudgetVarint.Ok(v + Pow2(7 * i) * w, i + n)
    case _ => r
  }

  lemma AfterNothing(r: BudgetVarint.Status)
    ensures After(0, 0, r) == r
  {
  }

  lemma OneMore(s: seq<Byte>, budget: nat, v: nat, i: nat)
    requires s != [] && budget > 0
    ensures var r := BudgetVarint.Scan(s, budget);
            var v' := v + Pow2(7 * i) * (s[0] % 0x80);
            After(v, i, r) == if s[0] < 0x80 then BudgetVarint.Ok(v', i + 1)
                              else After(v', i + 1, BudgetVarint.Scan(s[1..], budget - 1))
  {
    var r := BudgetVarint.Scan(s, budget);
    var t := BudgetVarint.Scan(s[1..], budget - 1);
    if s[0] >= 0x80 && t.Ok? {
      NextDigit(v, Pow2(7 * i), s[0] % 0x80, t.value);
      SevenMore(i);
    }
  }

  lemma SevenMore(i: nat)
    ensures Pow2(7 * (i + 1)) == 0x80 * Pow2(7 * i)
  {
    Pow2Add(7, 7 * i);
    assert 7 + 7 * i == 7 * (i + 1);
    assert Pow2(7) == 0x80;
  }

  lemma NextDigit(v: nat, p: nat, d: nat, w: nat)
    ensures v + p * (d + 0x80 * w) == v + p * d + (0x80 * p) * w
  {
    assert p * (d + 0x80 * w) == p * d + p * (0x80 * w);
  }

  /** Ten bytes are shifted by up to 63 bits; what goes past the 64-bit word is lost. */
  method DecodeVarint(data: seq<Byte>, maxBytes: nat) returns (r: BudgetVarint.Status)
    requires maxBytes <= 10
    ensures r == BudgetVarint.Decode(data, maxBytes)
  {
    hide BudgetVarint.Scan, After, Bits.Or, Bits.Shl, Pow2;
    var result: nat := 0;
    var shift: nat := 0;
    var i := 0;
    Start(data, maxBytes);
    ghost var full: nat := 0;
    while i < |data|
      invariant i <= |data| && i <= maxBytes && shift == 7 * i && result == full % Wire.TWO64
      invariant i < 10 ==> result == full < Pow2(shift)
      invariant BudgetVarint.Scan(data, maxBytes) == After(full, i, BudgetVarint.Scan(data[i..], maxBytes - i))
    {
      if i >= maxBytes {
        Stop(data[i..], maxBytes - i, full, i);
        return BudgetVarint.Overflow;
      }
      var b := data[i];
      OneMore(data[i..], maxBytes - i, full, i);
      assert data[i..][1..] == data[i + 1..];
      Digit(full, b, shift);
      result := Bits.Or(result, Bits.Shl(b % 0x80, shift) % Wire.TWO64);
      full := full + Pow2(shift) * (b % 0x80);
      if b < 0x80 {
        if result > 0xFFFF_FFFF {
          return BudgetVarint.Overflow;
        }
        return BudgetVarint.Ok(result, i + 1);
      }
      shift := shift + 7;
      i := i + 1;
    }
    Stop(data[i..], maxBytes - i, full, i);
    if |data| >= maxBytes {
      return BudgetVarint.Overflow;
    }
    return BudgetVarint.Incomplete;
  }

  lemma Start(data: seq<Byte>, maxBytes: nat)
    ensures Pow2(0) == 1 && data[0..] == data
    ensures BudgetVarint.Scan(data, maxBytes) == After(0, 0, BudgetVarint.Scan(data, maxBytes))
  {
    hide BudgetVarint.Scan;
    AfterNothing(BudgetVarint.Scan(data, maxBytes));
  }

  lemma Stop(s: seq<Byte>, budget: nat, v: nat, i: nat)
    requires budget == 0 || s == []
    ensures After(v, i, BudgetVarint.Scan(s, budget)) == if budget == 0 then BudgetVarint.Overflow else BudgetVarint.Incomplete
  {
  }

  /** A digit added; up to the ninth the word holds it whole. */
  lemma Digit(v: nat, b: Byte, shift: nat)
    requires v < Pow2(shift) && shift <= 63
    ensures var w := v + Pow2(shift) * (b % 0x80);
            && Bits.Or(v, Bits.Shl(b % 0x80, shift) % Wire.TWO64) == w % Wire.TWO64
            && w < Pow2(shift + 7) && (shift + 7 <= 63 ==> w % Wire.TWO64 == w)
  {
    hide Bits.Or, Bits.Shl, Pow2;
    ProtoCode.DigitOr(v, b, shift);
    ProtoCode.DigitFits(v, b % 0x80, shift);
    if shift + 7 <= 63 {
      Pow2Monotone(shift + 7, 64);
      Pow2Values();
    }
  }

  // ----- plaintext -----

  datatype Status = Ok | NeedMore | Throws(error: Error)

  class PlaintextFrameHelper {
    var buffer: seq<Byte>
    var consumed: nat

    ghost predicate Valid()
      reads this
    {
      consumed <= |buffer|
    }

    /** The bytes fed and not yet handed out. */
    ghost function Pending(): (b: seq<Byte>)
      reads this
      requires Valid()
    {
      buffer[consumed..]
    }

    constructor ()
      ensures Valid() && Pending() == []
    {
      buffer, consumed := [], 0;
    }

    method Encode(mtype: U32, payload: seq<Byte>, out: seq<Byte>) returns (r: seq<Byte>)
      ensures r == out + EncodePlaintext(Message(mtype, payload))
    {
      hide Wire.Varint;
      r := out + [0x00];
      r := AppendVarint(r, |payload| % 0x1_0000_0000);
      r := AppendVarint(r, mtype);
      r := r + payload;
    }

    method Feed(data: seq<Byte>)
      requires Valid()
      modifies this
      ensures Valid() && Pending() == old(Pending()) + data
    {
      buffer := buffer + data;
    }

    method Compact()
      requires Valid()
      modifies this
      ensures Valid() && consumed == 0 && buffer == old(Pending())
    {
      if consumed == 0 {
        return;
      }
      if consumed >= |buffer| {
        buffer := [];
      } else {
        buffer := buffer[consumed..];
      }
      consumed := 0;
    }

    method Next() returns (st: Status, mtype: nat, payload: seq<Byte>)
      requires Valid()
      modifies this
      ensures Valid()
      ensures var p := Pull(Plaintext, old(Pending()));
              && (st.Ok? <==> p.result.Got?)
              && (st.Ok? ==> p.result.message == Message(mtype, payload))
              && (st.Throws? <==> p.result.Refused?)
              && (st.Throws? ==> p.result.error == st.error)
              && Pending() == p.rest
    {
      hide BudgetVarint.Decode;
      Compact();
      ghost var b := buffer;
      assert Pending() == b;
      PullPlaintext(b);
      mtype, payload := 0, [];
      if |buffer| < 1 {
        return Status.NeedMore, 0, [];
      }
      if buffer[0] != 0x00 {
        if buffer[0] == 0x01 {
          return Throws(EncryptionMismatch), 0, [];
        }
        return Throws(BadIndicator), 0, [];
      }
      var length := DecodeVarint(buffer[1..], BUDGET);
      match length {
        case Incomplete => return Status.NeedMore, 0, [];
        case Overflow => return Throws(LengthVarint), 0, [];
        case Ok(len, n) =>
          var at := 1 + n;
          var kind := DecodeVarint(buffer[at..], BUDGET);
          match kind {
            case Incomplete => return Status.NeedMore, 0, [];
            case Overflow => return Throws(TypeVarint), 0, [];
            case Ok(t, k) =>
              at := at + k;
              if len > MAX_PAYLOAD {
                return Throws(Oversized), 0, [];
              }
              if |buffer| - at < len {
                return Status.NeedMore, 0, [];
              }
              mtype, payload := t, buffer[at..at + len];
              consumed := at + len;
              return Ok, mtype, payload;
          }
      }
    }

    /** Feed a chunk and take every message it completes. */
    method Receive(chunk: seq<Byte>) returns (messages: seq<Message>, error: Option<Error>)
      requires Valid()
      modifies this
      ensures Valid()
      ensures FrameSpec.Receive(Outcome([], Plaintext, old(Pending()), None), chunk)
           == Outcome(messages, Plaintext, Pending(), error)
    {
      hide Drain, Pull;
      Feed(chunk);
      ghost var whole := Drain(Plaintext, Pending());
      DrainKeepsPlaintext(Pending());
      messages, error := [], None;
      var more := true;
      while more
        invariant Valid()
        invariant more ==> error.None?
        invariant more ==> var o := Drain(Plaintext, Pending()); whole == o.(messages := messages + o.messages)
        invariant !more ==> whole == Outcome(messages, Plaintext, Pending(), error)
        decreases if more then |Pending()| + 1 else 0
      {
        DrainIsPulls(Plaintext, Pending());
        PullKeepsPlaintext(Pending());
        ghost var before := Pending();
        ghost var o := Drain(Plaintext, before);
        var st, t, p := Next();
        if st.Ok? {
          ghost var n := Drain(Plaintext, Pending());
          assert messages + ([Message(t, p)] + n.messages) == messages + [Message(t, p)] + n.messages;
          messages := messages + [Message(t, p)];
        } else {
          assert messages + o.messages == messages;
          more := false;
          if st.Throws? {
            error := Some(st.error);
          }
        }
      }
      assert [] + whole.messages == whole.messages;
    }
  }

  lemma PullPlaintext(b: seq<Byte>)
    ensures var d := DecidePlaintext(b);
            Pull(Plaintext, b) == if d.NeedMore? then Pulled(Plaintext, b, Wait)
                                  else if d.Bad? then Pulled(Plaintext, b, Refused(d.error))
                                  else if d.message.Some? then Pulled(Plaintext, b[d.used..], Got(d.message.value))
                                  else Pull(Plaintext, b[d.used..])
    ensures DecidePlaintext(b).Frame? ==> DecidePlaintext(b).message.Some?
  {
    hide BudgetVarint.Decode;
  }

  lemma PullKeepsPlaintext(b: seq<Byte>)
    ensures Pull(Plaintext, b).codec == Plaintext
  {
    hide DecidePlaintext;
    PullPlaintext(b);
  }

  lemma {:induction false} DrainKeepsPlaintext(b: seq<Byte>)
    ensures Drain(Plaintext, b).codec == Plaintext
    decreases |b|
  {
    hide DecidePlaintext;
    var d := DecidePlaintext(b);
    if d.Frame? {
      DrainKeepsPlaintext(b[d.used..]);
    }
  }
}
