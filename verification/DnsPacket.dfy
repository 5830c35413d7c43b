/** Reading the records of a DNS message and the entries of a text record: every read is in
    range, for every message. */
module DnsPacket {
  import opened Arith
  import opened DnsName

  type Text = seq<Byte>

  // ----- text records (section 3.3.14 of RFC 1035) -----

  /** The entries that can be read: each a length byte and that many bytes. */
  function Entries(rdata: seq<Byte>, i: nat): (es: seq<Text>)
    requires i <= |rdata|
    decreases |rdata| - i
  {
    if i == |rdata| || i + 1 + rdata[i] > |rdata| then []
    else [rdata[i + 1..i + 1 + rdata[i]]] + Entries(rdata, i + 1 + rdata[i])
  }

  /** The position of the first equals sign, or the length. */
  function EqualsAt(e: Text, i: nat): (k: nat)
    requires i <= |e|
    ensures i <= k <= |e| && (k < |e| ==> e[k] == 0x3D) && forall j :: i <= j < k ==> e[j] != 0x3D
    decreases |e| - i
  {
    if i == |e| || e[i] == 0x3D then i else EqualsAt(e, i + 1)
  }

  /** A key alone leaves a value it already has; a key with a value replaces it. */
  function PutEntry(out: map<Text, Text>, e: Text): (r: map<Text, Text>)
  {
    var k := EqualsAt(e, 0);
    if k == |e| then (if e in out then out else out[e := []]) else out[e[..k] := e[k + 1..]]
  }

  function PutAll(out: map<Text, Text>, es: seq<Text>): (r: map<Text, Text>)
    decreases |es|
  {
    if es == [] then out else PutAll(PutEntry(out, es[0]), es[1..])
  }

  method ParseTxt(rdata: seq<Byte>, before: map<Text, Text>) returns (out: map<Text, Text>)
    ensures out == PutAll(before, Entries(rdata, 0))
  {
    hide PutEntry, Entries, PutAll;
    out := before;
    var i: nat := 0;
    while i < |rdata|
      invariant i <= |rdata|
      invariant PutAll(out, Entries(rdata, i)) == PutAll(before, Entries(rdata, 0))
    {
      EntryStep(rdata, i, out);
      var n := rdata[i];
      i := i + 1;
      if i + n > |rdata| {
        return;
      }
      var entry := rdata[i..i + n];
      i := i + n;
      out := PutEntry(out, entry);
    }
    EntryStep(rdata, i, out);
  }

  lemma EntryStep(rdata: seq<Byte>, i: nat, out: map<Text, Text>)
    requires i <= |rdata|
    ensures i == |rdata| || i + 1 + rdata[i] > |rdata| ==> PutAll(out, Entries(rdata, i)) == out
    ensures i < |rdata| && i + 1 + rdata[i] <= |rdata| ==>
              PutAll(out, Entries(rdata, i)) == PutAll(PutEntry(out, rdata[i + 1..i + 1 + rdata[i]]), Entries(rdata, i + 1 + rdata[i]))
  {
    hide PutEntry;
    if i < |rdata| && i + 1 + rdata[i] <= |rdata| {
      assert Entries(rdata, i)[1..] == Entries(rdata, i + 1 + rdata[i]);
    }
  }

  function WrittenEntries(es: seq<Text>): (b: seq<Byte>)
    requires forall i :: 0 <= i < |es| ==> |es[i]| < 0x100
  {
    if es == [] then [] else [|es[0]|] + es[0] + WrittenEntries(es[1..])
  }

  /** Entries written one after the other are read back. */
  lemma {:induction false} EntriesRead(pre: seq<Byte>, es: seq<Text>)
    requires forall i :: 0 <= i < |es| ==> |es[i]| < 0x100
    ensures Entries(pre + WrittenEntries(es), |pre|) == es
    decreases |es|
  {
    hide Entries;
    var b := pre + WrittenEntries(es);
    if es == [] {
      EntriesAt(b, |pre|);
    } else {
      var pre' := pre + ([|es[0]|] + es[0]);
      assert b == pre' + WrittenEntries(es[1..]);
      EntriesRead(pre', es[1..]);
      assert b[|pre|] == |es[0]| && b[|pre| + 1..|pre| + 1 + |es[0]|] == es[0];
      EntriesAt(b, |pre|);
      assert es == [es[0]] + es[1..];
    }
  }

  lemma EntriesAt(rdata: seq<Byte>, i: nat)
    requires i <= |rdata|
    ensures i == |rdata| ==> Entries(rdata, i) == []
    ensures i < |rdata| && i + 1 + rdata[i] <= |rdata| ==>
              Entries(rdata, i) == [rdata[i + 1..i + 1 + rdata[i]]] + Entries(rdata, i + 1 + rdata[i])
  {
  }

  // ----- records (section 4.1 of RFC 1035) -----

  function Word(buf: seq<Byte>, pos: nat): (w: nat)
    requires pos + 2 <= |buf|
    ensures w < 0x1_0000
  {
    0x100 * (buf[pos] as int) + buf[pos + 1] as int
  }

  datatype Record = Record(name: Text, kind: nat, at: nat, len: nat)

  function Name(buf: seq<Byte>, pos: nat): (s: Text)
  {
    Dotted(Readable(buf, pos, MAX_JUMPS))
  }

  /** The records that can be read from pos, at most n of them. */
  function Records(buf: seq<Byte>, pos: nat, n: nat): (rs: seq<Record>)
    ensures forall i :: 0 <= i < |rs| ==> rs[i].at + rs[i].len <= |buf|
    decreases n
  {
    if n == 0 || pos >= |buf| then []
    else
      var e := EndOf(buf, pos);
      if e + 10 > |buf| || e + 10 + Word(buf, e + 8) > |buf| then []
      else
        var r := Record(Name(buf, pos), Word(buf, e), e + 10, Word(buf, e + 8));
        [r] + Records(buf, e + 10 + r.len, n - 1)
  }

  function AfterQuestions(buf: seq<Byte>, pos: nat, n: nat): (p: nat)
    decreases n
  {
    if n == 0 || pos >= |buf| then pos else AfterQuestions(buf, EndOf(buf, pos) + 4, n - 1)
  }

  const A: nat := 1
  const PTR: nat := 12
  const TXT: nat := 16
  const SRV: nat := 33

  datatype Accumulator = Accumulator(instances: set<Text>, srv: map<Text, (Text, nat)>, txt: map<Text, map<Text, Text>>, ipv4: map<Text, Text>)

  /** A byte in decimal. */
  function Decimal(b: Byte): (s: Text)
  {
    if b < 10 then [0x30 + b]
    else if b < 100 then [0x30 + b / 10, 0x30 + b % 10]
    else [0x30 + b / 100, 0x30 + b / 10 % 10, 0x30 + b % 10]
  }

  function Address(b: seq<Byte>): (s: Text)
    requires |b| == 4
  {
    Decimal(b[0]) + [DOT] + Decimal(b[1]) + [DOT] + Decimal(b[2]) + [DOT] + Decimal(b[3])
  }

  /** What one record adds. */
  function Absorb(buf: seq<Byte>, acc: Accumulator, r: Record): (a: Accumulator)
    requires r.at + r.len <= |buf|
  {
    var rdata := buf[r.at..r.at + r.len];
    if r.kind == PTR then acc.(instances := acc.instances + {Name(buf, r.at)})
    else if r.kind == SRV && r.len >= 6 then acc.(srv := acc.srv[r.name := (Name(buf, r.at + 6), Word(rdata, 4))])
    else if r.kind == TXT then
      acc.(txt := acc.txt[r.name := PutAll(if r.name in acc.txt then acc.txt[r.name] else map[], Entries(rdata, 0))])
    else if r.kind == A && r.len == 4 then acc.(ipv4 := acc.ipv4[r.name := Address(rdata)])
    else acc
  }

  function AbsorbAll(buf: seq<Byte>, acc: Accumulator, rs: seq<Record>): (a: Accumulator)
    requires forall i :: 0 <= i < |rs| ==> rs[i].at + rs[i].len <= |buf|
    decreases |rs|
  {
    if rs == [] then acc else AbsorbAll(buf, Absorb(buf, acc, rs[0]), rs[1..])
  }

  /** What a whole message adds. */
  function Absorbed(buf: seq<Byte>, acc: Accumulator): (a: Accumulator)
  {
    if |buf| < 12 then acc
    else AbsorbAll(buf, acc, Records(buf, AfterQuestions(buf, 12, Word(buf, 4)), Word(buf, 6) + Word(buf, 8) + Word(buf, 10)))
  }

  /** parse_packet */
  method ParsePacket(buf: seq<Byte>, before: Accumulator) returns (acc: Accumulator)
    ensures acc == Absorbed(buf, before)
  {
    hide Absorb, EndOf, Name, Readable, Records, AfterQuestions, AbsorbAll, Word;
    acc := before;
    if |buf| < 12 {
      return;
    }
    var qd, an, ns, ar := Word(buf, 4), Word(buf, 6), Word(buf, 8), Word(buf, 10);
    var pos: nat := 12;
    var i: nat := 0;
    QuestionStep(buf, pos, qd);
    while i < qd && pos < |buf|
      invariant i <= qd && AfterQuestions(buf, pos, qd - i) == AfterQuestions(buf, 12, qd)
    {
      QuestionStep(buf, pos, qd - i);
      var scratch;
      pos, scratch := ReadName(buf, pos);
      pos := pos + 4;
      i := i + 1;
    }
    QuestionStep(buf, pos, qd - i);
    var records := an + ns + ar;
    i := 0;
    while i < records && pos < |buf|
      invariant i <= records
      invariant AbsorbAll(buf, acc, Records(buf, pos, records - i)) == Absorbed(buf, before)
    {
      RecordStep(buf, pos, records - i, acc);
      var start, name := pos, [];
      pos, name := ReadName(buf, pos);
      if pos + 10 > |buf| {
        return;
      }
      var kind, rdlen := Word(buf, pos), Word(buf, pos + 8);
      pos := pos + 10;
      if pos + rdlen > |buf| {
        return;
      }
      NameIs(buf, start);
      acc := Take(buf, acc, Record(name, kind, pos, rdlen));
      pos := pos + rdlen;
      i := i + 1;
    }
    RecordStep(buf, pos, records - i, acc);
  }

  /** The switch over the record's type. */
  method Take(buf: seq<Byte>, before: Accumulator, r: Record) returns (acc: Accumulator)
    requires r.at + r.len <= |buf|
    ensures acc == Absorb(buf, before, r)
  {
    hide Readable, Dotted, PutAll, Entries, Word;
    acc := before;
    var rdata := buf[r.at..r.at + r.len];
    var end, target;
    if r.kind == PTR {
      end, target := ReadName(buf, r.at);
      acc := acc.(instances := acc.instances + {target});
    } else if r.kind == SRV {
      if r.len >= 6 {
        var port := Word(rdata, 4);
        end, target := ReadName(buf, r.at + 6);
        acc := acc.(srv := acc.srv[r.name := (target, port)]);
      }
    } else if r.kind == TXT {
      var out := ParseTxt(rdata, if r.name in acc.txt then acc.txt[r.name] else map[]);
      acc := acc.(txt := acc.txt[r.name := out]);
    } else if r.kind == A {
      if r.len == 4 {
        acc := acc.(ipv4 := acc.ipv4[r.name := Address(rdata)]);
      }
    }
  }

  lemma NameIs(buf: seq<Byte>, pos: nat)
    ensures Name(buf, pos) == Dotted(Readable(buf, pos, MAX_JUMPS))
  {
  }

  lemma QuestionStep(buf: seq<Byte>, pos: nat, n: nat)
    ensures AfterQuestions(buf, pos, n) == if n == 0 || pos >= |buf| then pos else AfterQuestions(buf, EndOf(buf, pos) + 4, n - 1)
  {
    hide EndOf;
  }

  lemma RecordStep(buf: seq<Byte>, pos: nat, n: nat, acc: Accumulator)
    ensures var all := AbsorbAll(buf, acc, Records(buf, pos, n));
            if n == 0 || pos >= |buf| then all == acc
            else
              var e := EndOf(buf, pos);
              if e + 10 > |buf| || e + 10 + Word(buf, e + 8) > |buf| then all == acc
              else
                var r := Record(Name(buf, pos), Word(buf, e), e + 10, Word(buf, e + 8));
                all == AbsorbAll(buf, Absorb(buf, acc, r), Records(buf, e + 10 + r.len, n - 1))
  {
    hide EndOf, Name, Absorb, Word;
    var rs := Records(buf, pos, n);
    if rs != [] {
      var e := EndOf(buf, pos);
      assert rs[1..] == Records(buf, e + 10 + Word(buf, e + 8), n - 1);
    }
  }

  // ----- writing records -----

  /** A record to be sent: its name, type, class and time to live, and data. */
  datatype Source = Source(labels: seq<Label>, kind: nat, fixed: seq<Byte>, rdata: seq<Byte>)

  predicate SourceOk(s: Source)
  {
    && (forall i :: 0 <= i < |s.labels| ==> 0 < |s.labels[i]| < 0x40)
    && s.kind < 0x1_0000 && |s.fixed| == 6 && |s.rdata| < 0x1_0000
  }

  function Pair(w: nat): (b: seq<Byte>)
    requires w < 0x1_0000
    ensures |b| == 2 && 0x100 * (b[0] as int) + b[1] as int == w
  {
    [w / 0x100, w % 0x100]
  }

  /** What follows the name. */
  function Body(s: Source): (b: seq<Byte>)
    requires SourceOk(s)
    ensures |b| == 10 + |s.rdata|
  {
    Pair(s.kind) + s.fixed + Pair(|s.rdata|) + s.rdata
  }

  function WrittenRecord(s: Source): (b: seq<Byte>)
    requires SourceOk(s)
    ensures |b| == |Written(s.labels)| + 11 + |s.rdata|
  {
    Written(s.labels) + [0] + Body(s)
  }

  function WrittenRecords(ss: seq<Source>): (b: seq<Byte>)
    requires forall i :: 0 <= i < |ss| ==> SourceOk(ss[i])
  {
    if ss == [] then [] else WrittenRecord(ss[0]) + WrittenRecords(ss[1..])
  }

  /** A written record as it stands at pos. */
  function PlacedOne(s: Source, pos: nat): (r: Record)
    requires SourceOk(s)
  {
    Record(Dotted(s.labels), s.kind, pos + |Written(s.labels)| + 11, |s.rdata|)
  }

  function Placed(ss: seq<Source>, pos: nat): (rs: seq<Record>)
    requires forall i :: 0 <= i < |ss| ==> SourceOk(ss[i])
  {
    if ss == [] then [] else [PlacedOne(ss[0], pos)] + Placed(ss[1..], pos + |WrittenRecord(ss[0])|)
  }

  lemma OneRecord(pre: seq<Byte>, s: Source, post: seq<Byte>)
    requires SourceOk(s)
    ensures var buf := pre + WrittenRecord(s) + post;
            var e := |pre| + |Written(s.labels)| + 1;
            && EndOf(buf, |pre|) == e && Name(buf, |pre|) == Dotted(s.labels)
            && e + 10 + |s.rdata| <= |buf| && Word(buf, e) == s.kind && Word(buf, e + 8) == |s.rdata|
            && buf[e + 10..e + 10 + |s.rdata|] == s.rdata
  {
    hide EndOf, Readable, Dotted, Written;
    var buf, e, body := pre + WrittenRecord(s) + post, |pre| + |Written(s.labels)| + 1, Body(s);
    assert buf == pre + Written(s.labels) + ([0] + (body + post));
    WriteRead(pre, s.labels, body + post);
    assert buf[e..] == body + post;
    assert buf[e] == body[0] == Pair(s.kind)[0] && buf[e + 1] == body[1] == Pair(s.kind)[1];
    assert buf[e + 8] == body[8] == Pair(|s.rdata|)[0] && buf[e + 9] == body[9] == Pair(|s.rdata|)[1];
    assert buf[e + 10..e + 10 + |s.rdata|] == body[10..];
  }

  /** Records written one after the other are read back, with their names, types and data. */
  lemma {:induction false} RecordsRead(pre: seq<Byte>, ss: seq<Source>, post: seq<Byte>)
    requires forall i :: 0 <= i < |ss| ==> SourceOk(ss[i])
    ensures Records(pre + WrittenRecords(ss) + post, |pre|, |ss|) == Placed(ss, |pre|)
    decreases |ss|
  {
    hide Records, WrittenRecord, PlacedOne, SourceOk;
    if ss == [] {
      NoRecords(pre + WrittenRecords(ss) + post, |pre|);
    } else {
      var buf := pre + WrittenRecords(ss) + post;
      var first, more := WrittenRecord(ss[0]), WrittenRecords(ss[1..]);
      assert buf == pre + first + (more + post);
      FirstRecord(pre, ss[0], more + post, |ss|);
      var pre' := pre + first;
      assert buf == pre' + more + post;
      RecordsRead(pre', ss[1..], post);
    }
  }

  lemma NoRecords(buf: seq<Byte>, pos: nat)
    ensures Records(buf, pos, 0) == []
  {
  }

  lemma FirstRecord(pre: seq<Byte>, s: Source, post: seq<Byte>, n: nat)
    requires SourceOk(s) && n > 0
    ensures var buf := pre + WrittenRecord(s) + post;
            Records(buf, |pre|, n) == [PlacedOne(s, |pre|)] + Records(buf, |pre| + |WrittenRecord(s)|, n - 1)
  {
    hide EndOf, Name, Word, Dotted, Written;
    OneRecord(pre, s, post);
  }
}
