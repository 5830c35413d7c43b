/** Reading a name of a DNS message: labels, and pointers to the rest of a name elsewhere
    in the message (section 4.1.4 of RFC 1035). */
module DnsName {
  import opened Arith

  type Label = seq<Byte>
  const DOT: Byte := 0x2E
  const MAX_JUMPS: nat := 128

  // ----- names in a message -----

  function Target(buf: seq<Byte>, pos: nat): (t: nat)
    requires pos + 1 < |buf|
  {
    0x100 * (buf[pos] as int % 0x40) + buf[pos + 1] as int
  }

  /** The message has the name `ls` at pos, written with at most `jumps` pointers. */
  ghost predicate NameAt(buf: seq<Byte>, pos: nat, ls: seq<Label>, jumps: nat)
    decreases jumps, |ls|
  {
    pos < |buf| &&
    if buf[pos] >= 0xC0 then
      pos + 1 < |buf| && jumps > 0 && NameAt(buf, Target(buf, pos), ls, jumps - 1)
    else if ls == [] then buf[pos] == 0
    else
      && 0 < |ls[0]| < 0x40 && buf[pos] == |ls[0]|
      && pos + 1 + |ls[0]| <= |buf| && buf[pos + 1..pos + 1 + |ls[0]|] == ls[0]
      && NameAt(buf, pos + 1 + |ls[0]|, ls[1..], jumps)
  }

  /** The labels separated by dots. */
  function Dotted(ls: seq<Label>): (s: seq<Byte>)
  {
    if ls == [] then [] else if |ls| == 1 then ls[0] else ls[0] + [DOT] + Dotted(ls[1..])
  }

  /** Where the record goes on: past the end of the name, or past its first pointer. */
  function EndOf(buf: seq<Byte>, pos: nat): (e: nat)
    ensures pos <= e <= if pos <= |buf| then |buf| else pos
    decreases |buf| - pos
  {
    if pos >= |buf| then pos
    else if buf[pos] >= 0xC0 then if pos + 1 >= |buf| then pos else pos + 2
    else if buf[pos] == 0 then pos + 1
    else if pos + 1 + buf[pos] > |buf| then pos
    else EndOf(buf, pos + 1 + buf[pos])
  }

  /** The labels that can be read from pos in any message, up to the end of the name or
      to whatever is malformed. */
  function Readable(buf: seq<Byte>, pos: nat, jumps: nat): (ls: seq<Label>)
    ensures forall i :: 0 <= i < |ls| ==> |ls[i]| > 0
    decreases jumps, |buf| - pos
  {
    if pos >= |buf| then []
    else if buf[pos] >= 0xC0 then
      if pos + 1 >= |buf| || jumps == 0 then [] else Readable(buf, Target(buf, pos), jumps - 1)
    else if buf[pos] == 0 || pos + 1 + buf[pos] > |buf| then []
    else [buf[pos + 1..pos + 1 + buf[pos]]] + Readable(buf, pos + 1 + buf[pos], jumps)
  }

  /** A name in the message is what can be read. */
  lemma {:induction false} NameIsReadable(buf: seq<Byte>, pos: nat, ls: seq<Label>, jumps: nat)
    requires NameAt(buf, pos, ls, jumps)
    ensures Readable(buf, pos, jumps) == ls
    decreases jumps, |ls|
  {
    hide Readable;
    ReadableStep(buf, pos, jumps);
    if buf[pos] >= 0xC0 {
      NameIsReadable(buf, Target(buf, pos), ls, jumps - 1);
    } else if ls != [] {
      NameIsReadable(buf, pos + 1 + |ls[0]|, ls[1..], jumps);
      assert ls == [ls[0]] + ls[1..];
    }
  }

  lemma ReadableStep(buf: seq<Byte>, pos: nat, jumps: nat)
    requires pos < |buf|
    ensures buf[pos] == 0 ==> Readable(buf, pos, jumps) == []
    ensures buf[pos] >= 0xC0 && pos + 1 < |buf| && jumps > 0 ==>
              Readable(buf, pos, jumps) == Readable(buf, Target(buf, pos), jumps - 1)
    ensures 0 < buf[pos] < 0xC0 && pos + 1 + buf[pos] <= |buf| ==>
              Readable(buf, pos, jumps) == [buf[pos + 1..pos + 1 + buf[pos]]] + Readable(buf, pos + 1 + buf[pos], jumps)
  {
  }

  lemma EndStep(buf: seq<Byte>, pos: nat)
    requires pos < |buf|
    ensures buf[pos] == 0 ==> EndOf(buf, pos) == pos + 1
    ensures buf[pos] >= 0xC0 && pos + 1 < |buf| ==> EndOf(buf, pos) == pos + 2
    ensures 0 < buf[pos] < 0xC0 && pos + 1 + buf[pos] <= |buf| ==> EndOf(buf, pos) == EndOf(buf, pos + 1 + buf[pos])
  {
  }

  // ----- the reader -----

  /** What a name read so far becomes with the labels still to come. */
  function Joined(out: seq<Byte>, ls: seq<Label>): (s: seq<Byte>)
  {
    if ls == [] then out else if out == [] then Dotted(ls) else out + [DOT] + Dotted(ls)
  }

  lemma JoinOne(out: seq<Byte>, l: Label, ls: seq<Label>)
    requires |l| > 0
    ensures Joined(out, [l] + ls) == Joined((if out == [] then [] else out + [DOT]) + l, ls)
  {
    var all := [l] + ls;
    assert all[1..] == ls;
    if ls != [] {
      assert Dotted(all) == l + [DOT] + Dotted(ls);
      assert out + [DOT] + (l + [DOT] + Dotted(ls)) == out + [DOT] + l + [DOT] + Dotted(ls);
      assert [] + l == l;
    }
  }

  /** read_name: for every buffer, the dotted labels that can be read through at most 128
      pointers and the place after the name. */
  method ReadName(buf: seq<Byte>, start: nat) returns (end: nat, out: seq<Byte>)
    ensures out == Dotted(Readable(buf, start, MAX_JUMPS))
    ensures end == EndOf(buf, start)
  {
    hide Readable, EndOf, Dotted, Joined;
    out := [];
    var pos: nat, next: nat, jumped, guard: nat := start, start, false, 0;
    Nothing(Readable(buf, start, MAX_JUMPS));
    while pos < |buf|
      invariant guard <= MAX_JUMPS
      invariant Dotted(Readable(buf, start, MAX_JUMPS)) == Joined(out, Readable(buf, pos, MAX_JUMPS - guard))
      invariant if jumped then next == EndOf(buf, start) else EndOf(buf, start) == EndOf(buf, pos)
      decreases MAX_JUMPS - guard, |buf| - pos
    {
      var len := buf[pos];
      Round(buf, pos, MAX_JUMPS - guard, out);
      if len >= 0xC0 {
        if pos + 1 >= |buf| {
          break;
        }
        if !jumped {
          next := pos + 2;
        }
        jumped := true;
        pos := Target(buf, pos);
        guard := guard + 1;
        if guard > MAX_JUMPS {
          return next, out;
        }
        continue;
      }
      if len == 0 {
        pos := pos + 1;
        return if jumped then next else pos, out;
      }
      if pos + 1 + len > |buf| {
        break;
      }
      if out != [] {
        out := out + [DOT];
      }
      out := out + buf[pos + 1..pos + 1 + len];
      pos := pos + 1 + len;
    }
    Stuck(buf, pos, MAX_JUMPS - guard, out);
    end := if jumped then next else pos;
  }

  lemma Nothing(ls: seq<Label>)
    ensures Joined([], ls) == Dotted(ls)
  {
  }

  /** Nothing can be read past the end, from a cut pointer or from a cut label. */
  lemma Stuck(buf: seq<Byte>, pos: nat, jumps: nat, out: seq<Byte>)
    requires pos >= |buf| || (buf[pos] >= 0xC0 && pos + 1 >= |buf|) || (0 < buf[pos] < 0xC0 && pos + 1 + buf[pos] > |buf|)
    ensures Joined(out, Readable(buf, pos, jumps)) == out && EndOf(buf, pos) == pos
  {
  }

  /** One turn of the loop, in terms of what can be read. */
  lemma Round(buf: seq<Byte>, pos: nat, jumps: nat, out: seq<Byte>)
    requires pos < |buf|
    ensures var len := buf[pos];
            var all := Joined(out, Readable(buf, pos, jumps));
            if len >= 0xC0 then
              pos + 1 < |buf| ==>
                && EndOf(buf, pos) == pos + 2
                && all == if jumps == 0 then out else Joined(out, Readable(buf, Target(buf, pos), jumps - 1))
            else if len == 0 then all == out && EndOf(buf, pos) == pos + 1
            else
              pos + 1 + len <= |buf| ==>
                var l := buf[pos + 1..pos + 1 + len];
                && EndOf(buf, pos) == EndOf(buf, pos + 1 + len)
                && all == Joined((if out == [] then [] else out + [DOT]) + l, Readable(buf, pos + 1 + len, jumps))
  {
    hide Joined;
    var len := buf[pos];
    NothingMore(out);
    if 0 < len < 0xC0 && pos + 1 + len <= |buf| {
      JoinOne(out, buf[pos + 1..pos + 1 + len], Readable(buf, pos + 1 + len, jumps));
    }
  }

  lemma NothingMore(out: seq<Byte>)
    ensures Joined(out, []) == out
  {
  }

  /** Every name the standard allows with at most 128 pointers is read as its dotted
      labels, from wherever in the message it stands. */
  lemma NameRead(buf: seq<Byte>, pos: nat, ls: seq<Label>)
    requires NameAt(buf, pos, ls, MAX_JUMPS)
    ensures Dotted(Readable(buf, pos, MAX_JUMPS)) == Dotted(ls)
  {
    hide NameAt, Readable, Dotted;
    NameIsReadable(buf, pos, ls, MAX_JUMPS);
  }

  // ----- writing names -----

  /** The labels with their lengths, to be followed by a zero or a pointer. */
  function Written(ls: seq<Label>): (b: seq<Byte>)
    requires forall i :: 0 <= i < |ls| ==> 0 < |ls[i]| < 0x40
  {
    if ls == [] then [] else [|ls[0]|] + ls[0] + Written(ls[1..])
  }

  /** Labels in front of a name that stands in the message make a longer name; with no
      pointer of their own when a zero byte follows, with one more when a pointer does. */
  lemma {:induction false} WrittenName(pre: seq<Byte>, ls: seq<Label>, post: seq<Byte>, rest: seq<Label>, jumps: nat)
    requires forall i :: 0 <= i < |ls| ==> 0 < |ls[i]| < 0x40
    requires NameAt(pre + Written(ls) + post, |pre| + |Written(ls)|, rest, jumps)
    ensures NameAt(pre + Written(ls) + post, |pre|, ls + rest, jumps)
    decreases |ls|
  {
    hide NameAt;
    if ls == [] {
      assert ls + rest == rest;
    } else {
      var l, w := ls[0], Written(ls[1..]);
      var pre' := pre + ([|l|] + l);
      var buf := pre + Written(ls) + post;
      assert buf == pre' + w + post;
      WrittenName(pre', ls[1..], post, rest, jumps);
      assert (ls + rest)[1..] == ls[1..] + rest;
      LabelInFront(buf, |pre|, ls + rest, jumps);
    }
  }

  lemma LabelInFront(buf: seq<Byte>, pos: nat, ls: seq<Label>, jumps: nat)
    requires ls != [] && 0 < |ls[0]| < 0x40 && pos + 1 + |ls[0]| <= |buf|
    requires buf[pos] == |ls[0]| && buf[pos + 1..pos + 1 + |ls[0]|] == ls[0]
    requires NameAt(buf, pos + 1 + |ls[0]|, ls[1..], jumps)
    ensures NameAt(buf, pos, ls, jumps)
  {
  }

  /** A name written out in full is read back, whatever surrounds it. */
  lemma WriteRead(pre: seq<Byte>, ls: seq<Label>, post: seq<Byte>)
    requires forall i :: 0 <= i < |ls| ==> 0 < |ls[i]| < 0x40
    ensures var buf := pre + Written(ls) + ([0] + post);
            Readable(buf, |pre|, MAX_JUMPS) == ls && EndOf(buf, |pre|) == |pre| + |Written(ls)| + 1
  {
    hide Readable, EndOf;
    var buf := pre + Written(ls) + ([0] + post);
    assert NameAt(buf, |pre| + |Written(ls)|, [], MAX_JUMPS);
    hide NameAt;
    WrittenName(pre, ls, [0] + post, [], MAX_JUMPS);
    assert ls + [] == ls;
    NameIsReadable(buf, |pre|, ls, MAX_JUMPS);
    WrittenEnd(pre, ls, [0] + post);
    EndStep(buf, |pre| + |Written(ls)|);
  }

  lemma {:induction false} WrittenEnd(pre: seq<Byte>, ls: seq<Label>, post: seq<Byte>)
    requires forall i :: 0 <= i < |ls| ==> 0 < |ls[i]| < 0x40
    ensures var buf := pre + Written(ls) + post; EndOf(buf, |pre|) == EndOf(buf, |pre| + |Written(ls)|)
    decreases |ls|
  {
    hide EndOf;
    if ls != [] {
      var l, w := ls[0], Written(ls[1..]);
      var pre' := pre + ([|l|] + l);
      var buf := pre + Written(ls) + post;
      assert buf == pre' + w + post;
      WrittenEnd(pre', ls[1..], post);
      assert buf[|pre|] == |l|;
      EndStep(buf, |pre|);
    }
  }

  /** A name whose end is a pointer to a name standing earlier or later in the message. */
  lemma CompressedName(pre: seq<Byte>, ls: seq<Label>, target: nat, post: seq<Byte>, rest: seq<Label>, jumps: nat)
    requires forall i :: 0 <= i < |ls| ==> 0 < |ls[i]| < 0x40
    requires target < 0x4000 && jumps < MAX_JUMPS
    requires var buf := pre + Written(ls) + ([0xC0 + target / 0x100, target % 0x100] + post); NameAt(buf, target, rest, jumps)
    ensures var buf := pre + Written(ls) + ([0xC0 + target / 0x100, target % 0x100] + post);
            Readable(buf, |pre|, jumps + 1) == ls + rest && EndOf(buf, |pre|) == |pre| + |Written(ls)| + 2
  {
    hide Readable, EndOf;
    var two: seq<Byte> := [0xC0 + target / 0x100, target % 0x100];
    var buf, at := pre + Written(ls) + (two + post), |pre| + |Written(ls)|;
    assert buf[at] == two[0] && buf[at + 1] == two[1];
    assert Target(buf, at) == target;
    assert NameAt(buf, at, rest, jumps + 1);
    EndStep(buf, at);
    hide NameAt;
    WrittenName(pre, ls, two + post, rest, jumps + 1);
    NameIsReadable(buf, |pre|, ls + rest, jumps + 1);
    WrittenEnd(pre, ls, two + post);
  }
}
