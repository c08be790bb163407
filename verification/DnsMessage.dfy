/** DNS messages of RFC 1035 section 4.1 with the record types of the announcement, laid out and
    read back. */
module DnsMessage {
  import opened Bytes

  const A: nat := 1
  const PTR: nat := 12
  const TXT: nat := 16
  const SRV: nat := 33

  type Label = seq<byte>
  type Name = seq<Label>

  datatype Data =
    | PtrData(name: Name)
    | TxtData(strings: seq<Label>)
    | SrvData(priority: nat, weight: nat, port: nat, target: Name)
    | AData(address: seq<byte>)

  datatype Record = Record(name: Name, class_: nat, ttl: nat, data: Data)

  /** Header words, and the answer section. */
  datatype Message = Message(id: nat, flags: nat, answers: seq<Record>)

  predicate GoodName(n: Name)
  {
    forall l :: l in n ==> 1 <= |l| <= 63
  }

  predicate GoodData(d: Data)
  {
    && |DataBytes(d)| < 0x1_0000
    && match d
       case PtrData(n) => GoodName(n)
       case TxtData(ss) => forall t :: t in ss ==> |t| <= 255
       case SrvData(p, w, port, n) => p < 0x1_0000 && w < 0x1_0000 && port < 0x1_0000 && GoodName(n)
       case AData(a) => |a| == 4
  }

  predicate GoodRecord(r: Record)
  {
    GoodName(r.name) && r.class_ < 0x1_0000 && r.ttl < 0x1_0000_0000 && GoodData(r.data)
  }

  predicate GoodMessage(m: Message)
  {
    m.id < 0x1_0000 && m.flags < 0x1_0000 && |m.answers| < 0x1_0000 && forall r :: r in m.answers ==> GoodRecord(r)
  }

  /** 16 bits, reduced so that the function is total. */
  function U16(n: nat): (b: seq<byte>)
    ensures |b| == 2
  {
    Be16(n % 0x1_0000)
  }

  function U32(n: nat): (b: seq<byte>)
    ensures |b| == 4
  {
    U16(n / 0x1_0000) + U16(n)
  }

  /** A length octet and that many octets. */
  function Counted(l: Label): (b: seq<byte>)
    ensures |b| == 1 + |l|
  {
    [(|l| % 256) as byte] + l
  }

  function CountedAll(ls: seq<Label>): seq<byte>
  {
    if |ls| == 0 then [] else Counted(ls[0]) + CountedAll(ls[1..])
  }

  /** Section 3.1: labels and the zero octet. */
  function NameBytes(n: Name): seq<byte>
  {
    CountedAll(n) + [0]
  }

  function TypeOf(d: Data): nat
  {
    match d
    case PtrData(_) => PTR
    case TxtData(_) => TXT
    case SrvData(_, _, _, _) => SRV
    case AData(_) => A
  }

  function DataBytes(d: Data): seq<byte>
  {
    match d
    case PtrData(n) => NameBytes(n)
    case TxtData(ss) => CountedAll(ss)
    case SrvData(p, w, port, n) => U16(p) + U16(w) + U16(port) + NameBytes(n)
    case AData(a) => a
  }

  /** Section 4.1.3: name, type, class, ttl, length, data. */
  function RecordBytes(r: Record): seq<byte>
  {
    var d := DataBytes(r.data);
    NameBytes(r.name) + (U16(TypeOf(r.data)) + U16(r.class_) + U32(r.ttl) + U16(|d|) + d)
  }

  function RecordsBytes(rs: seq<Record>): seq<byte>
  {
    if |rs| == 0 then [] else RecordBytes(rs[0]) + RecordsBytes(rs[1..])
  }

  /** Section 4.1.1: six words, with the number of answers in the fourth. */
  function MessageBytes(m: Message): seq<byte>
  {
    U16(m.id) + U16(m.flags) + U16(0) + U16(|m.answers|) + U16(0) + U16(0) + RecordsBytes(m.answers)
  }

  // The reader.

  /** Labels up to the zero octet; lengths above 63 are not labels. */
  function ReadName(b: seq<byte>): Option<(Name, seq<byte>)>
  {
    if |b| == 0 then None
    else
      var n := b[0] as nat;
      if n == 0 then Some(([], b[1..]))
      else if n > 63 || |b| < 1 + n then None
      else match ReadName(b[1 + n..])
        case None => None
        case Some((rest, t)) => Some(([b[1..1 + n]] + rest, t))
  }

  function ReadStrings(b: seq<byte>): Option<seq<Label>>
  {
    if |b| == 0 then Some([])
    else
      var n := b[0] as nat;
      if |b| < 1 + n then None
      else match ReadStrings(b[1 + n..])
        case None => None
        case Some(rest) => Some([b[1..1 + n]] + rest)
  }

  function ReadWholeName(b: seq<byte>): Option<Name>
  {
    match ReadName(b)
    case None => None
    case Some((n, t)) => if t == [] then Some(n) else None
  }

  /** The data of a record, which must fill its RDLENGTH octets. */
  function ReadData(typ: nat, b: seq<byte>): Option<Data>
  {
    if typ == PTR then
      match ReadWholeName(b)
      case None => None
      case Some(n) => Some(PtrData(n))
    else if typ == TXT then
      match ReadStrings(b)
      case None => None
      case Some(ss) => Some(TxtData(ss))
    else if typ == SRV then
      if |b| < 6 then None
      else match ReadWholeName(b[6..])
        case None => None
        case Some(n) => Some(SrvData(FromBe16(b[0], b[1]), FromBe16(b[2], b[3]), FromBe16(b[4], b[5]), n))
    else if typ == A && |b| == 4 then Some(AData(b))
    else None
  }

  function ReadRecord(b: seq<byte>): Option<(Record, seq<byte>)>
  {
    match ReadName(b)
    case None => None
    case Some((name, t)) =>
      if |t| < 10 then None
      else
        var typ, class_ := FromBe16(t[0], t[1]), FromBe16(t[2], t[3]);
        var ttl := FromBe16(t[4], t[5]) * 0x1_0000 + FromBe16(t[6], t[7]);
        var len := FromBe16(t[8], t[9]);
        if |t| < 10 + len then None
        else match ReadData(typ, t[10..10 + len])
          case None => None
          case Some(d) => Some((Record(name, class_, ttl, d), t[10 + len..]))
  }

  function ReadRecords(n: nat, b: seq<byte>): Option<(seq<Record>, seq<byte>)>
  {
    if n == 0 then Some(([], b))
    else match ReadRecord(b)
      case None => None
      case Some((r, t)) =>
        match ReadRecords(n - 1, t)
        case None => None
        case Some((rs, u)) => Some(([r] + rs, u))
  }

  /** A message with an answer section only, and nothing after it. */
  function ReadMessage(b: seq<byte>): Option<Message>
  {
    if |b| < 12 || FromBe16(b[4], b[5]) != 0 || FromBe16(b[8], b[9]) != 0 || FromBe16(b[10], b[11]) != 0 then None
    else match ReadRecords(FromBe16(b[6], b[7]), b[12..])
      case None => None
      case Some((rs, t)) => if t == [] then Some(Message(FromBe16(b[0], b[1]), FromBe16(b[2], b[3]), rs)) else None
  }

  /** The TYPE field of a record, by the numbers of RFC 1035 and RFC 2782. */
  lemma TypeOnWire(r: Record)
    ensures var at, b := |NameBytes(r.name)|, RecordBytes(r);
      |b| >= at + 2 && b[at] == 0 &&
      b[at + 1] == match r.data
        case PtrData(_) => 12
        case TxtData(_) => 16
        case SrvData(_, _, _, _) => 33
        case AData(_) => 1
  {
    hide NameBytes, DataBytes, U32;
    assert U16(TypeOf(r.data))[0] == 0;
  }

  lemma U16Back(n: nat)
    requires n < 0x1_0000
    ensures FromBe16(U16(n)[0], U16(n)[1]) == n
  {
  }

  lemma CountedParts(l: Label, b: seq<byte>)
    requires |l| < 256
    ensures var s := Counted(l) + b;
      s[0] == |l| as byte && s[1..1 + |l|] == l && s[1 + |l|..] == b && |s| >= 1 + |l|
  {
  }

  lemma ReadNameStep(l: Label, b: seq<byte>)
    requires 1 <= |l| <= 63
    ensures ReadName(Counted(l) + b) ==
      match ReadName(b)
      case None => None
      case Some((rest, t)) => Some(([l] + rest, t))
  {
    CountedParts(l, b);
    hide Counted;
  }

  lemma NameSplit(n: Name, t: seq<byte>)
    requires |n| > 0
    ensures NameBytes(n) + t == Counted(n[0]) + (NameBytes(n[1..]) + t)
    ensures n == [n[0]] + n[1..]
  {
    hide Counted;
    var a, b := Counted(n[0]), CountedAll(n[1..]);
    assert a + b + [0] + t == a + (b + [0] + t);
  }

  lemma U16Octets(n: nat)
    requires n < 0x1_0000
    ensures U16(n) == [(n / 256) as byte, (n % 256) as byte]
  {
  }

  lemma {:induction false} ReadNameOf(n: Name, t: seq<byte>)
    requires GoodName(n)
    ensures ReadName(NameBytes(n) + t) == Some((n, t))
  {
    if |n| == 0 {
      assert (NameBytes(n) + t)[1..] == t;
    } else {
      hide NameBytes, ReadName, Counted;
      assert n[0] in n;
      NameSplit(n, t);
      ReadNameOf(n[1..], t);
      ReadNameStep(n[0], NameBytes(n[1..]) + t);
    }
  }

  lemma ReadStringsStep(l: Label, b: seq<byte>)
    requires |l| <= 255
    ensures ReadStrings(Counted(l) + b) ==
      match ReadStrings(b)
      case None => None
      case Some(rest) => Some([l] + rest)
  {
    CountedParts(l, b);
    hide Counted;
  }

  lemma {:induction false} ReadStringsOf(ss: seq<Label>)
    requires forall s :: s in ss ==> |s| <= 255
    ensures ReadStrings(CountedAll(ss)) == Some(ss)
  {
    if |ss| > 0 {
      hide ReadStrings, Counted;
      assert ss[0] in ss;
      ReadStringsOf(ss[1..]);
      ReadStringsStep(ss[0], CountedAll(ss[1..]));
      assert ss == [ss[0]] + ss[1..];
    }
  }

  lemma ReadWholeNameOf(n: Name)
    requires GoodName(n)
    ensures ReadWholeName(NameBytes(n)) == Some(n)
  {
    hide NameBytes, ReadName;
    ReadNameOf(n, []);
    assert NameBytes(n) + [] == NameBytes(n);
  }

  lemma ReadDataOf(d: Data)
    requires GoodData(d)
    ensures ReadData(TypeOf(d), DataBytes(d)) == Some(d)
  {
    hide U16, FromBe16, NameBytes, ReadWholeName, ReadStrings;
    match d
    case PtrData(n) => ReadWholeNameOf(n);
    case TxtData(ss) => ReadStringsOf(ss);
    case SrvData(p, w, port, n) =>
      ReadWholeNameOf(n);
      U16Back(p);
      U16Back(w);
      U16Back(port);
      SrvParts(U16(p), U16(w), U16(port), NameBytes(n));
    case AData(a) =>
  }

  lemma SrvParts(p: seq<byte>, w: seq<byte>, port: seq<byte>, n: seq<byte>)
    requires |p| == |w| == |port| == 2
    ensures var b := p + w + port + n;
      |b| >= 6 && b[0] == p[0] && b[1] == p[1] && b[2] == w[0] && b[3] == w[1] && b[4] == port[0] && b[5] == port[1] &&
      b[6..] == n
  {
  }

  lemma ReadRecordOf(r: Record, t: seq<byte>)
    requires GoodRecord(r)
    ensures ReadRecord(RecordBytes(r) + t) == Some((r, t))
  {
    hide U16, FromBe16, NameBytes, ReadName, ReadData, DataBytes;
    var d := DataBytes(r.data);
    var u := U16(TypeOf(r.data)) + U16(r.class_) + (U16(r.ttl / 0x1_0000) + U16(r.ttl)) + U16(|d|) + d;
    assert RecordBytes(r) + t == NameBytes(r.name) + (u + t);
    ReadNameOf(r.name, u + t);
    U16Back(TypeOf(r.data));
    U16Back(r.class_);
    U16Back(r.ttl / 0x1_0000);
    LowWord(r.ttl);
    U16Back(r.ttl % 0x1_0000);
    U16Back(|d|);
    assert (u + t)[10..10 + |d|] == d && (u + t)[10 + |d|..] == t;
    ReadDataOf(r.data);
  }

  lemma LowWord(n: nat)
    ensures U16(n) == U16(n % 0x1_0000)
  {
  }

  lemma {:induction false} ReadRecordsOf(rs: seq<Record>)
    requires forall r :: r in rs ==> GoodRecord(r)
    ensures ReadRecords(|rs|, RecordsBytes(rs)) == Some((rs, []))
  {
    hide GoodRecord, RecordBytes, ReadRecord;
    if |rs| > 0 {
      ReadRecordOf(rs[0], RecordsBytes(rs[1..]));
      ReadRecordsOf(rs[1..]);
      assert rs == [rs[0]] + rs[1..];
    }
  }

  /** Reading inverts laying out: every well-formed message, every record, every length field. */
  lemma ReadMessageOf(m: Message)
    requires GoodMessage(m)
    ensures ReadMessage(MessageBytes(m)) == Some(m)
  {
    ReadRecordsOf(m.answers);
    U16Back(m.id);
    U16Back(m.flags);
    U16Back(0);
    U16Back(|m.answers|);
    hide U16, FromBe16, RecordsBytes, ReadRecords, GoodRecord, GoodMessage;
    SixWords(U16(m.id), U16(m.flags), U16(0), U16(|m.answers|), U16(0), U16(0), RecordsBytes(m.answers));
  }

  lemma SixWords(a: seq<byte>, b: seq<byte>, c: seq<byte>, d: seq<byte>, e: seq<byte>, f: seq<byte>, t: seq<byte>)
    requires |a| == |b| == |c| == |d| == |e| == |f| == 2
    ensures var m := a + b + c + d + e + f + t;
      && |m| >= 12 && m[0] == a[0] && m[1] == a[1] && m[2] == b[0] && m[3] == b[1] && m[4] == c[0] && m[5] == c[1]
      && m[6] == d[0] && m[7] == d[1] && m[8] == e[0] && m[9] == e[1] && m[10] == f[0] && m[11] == f[1] && m[12..] == t
  {
  }
}
