/** The mDNS announcement of the HTTP service, written in place with back-patched lengths. */
module Mdns {
  import opened Bytes
  import opened DnsMessage

  const CLASS_IN: nat := 1
  const CACHE_FLUSH: nat := 0x8000
  const PTR_TTL: nat := 4500
  const HOST_TTL: nat := 120
  const HTTP_PORT: nat := 80
  const PACKET_MAX: nat := 384

  function HostName(host: seq<byte>): Name {
    [host, Ascii("local")]
  }

  function ServiceName(): Name {
    [Ascii("_http"), Ascii("_tcp"), Ascii("local")]
  }

  function InstanceName(host: seq<byte>): Name {
    [host, Ascii("_http"), Ascii("_tcp"), Ascii("local")]
  }

  /** What the announcement is meant to say. */
  function PtrRecord(host: seq<byte>): Record {
    Record(ServiceName(), CLASS_IN, PTR_TTL, PtrData(InstanceName(host)))
  }

  function TxtRecord(host: seq<byte>): Record {
    Record(InstanceName(host), CLASS_IN + CACHE_FLUSH, PTR_TTL, TxtData([Ascii("path=/")]))
  }

  function SrvRecord(host: seq<byte>): Record {
    Record(InstanceName(host), CLASS_IN + CACHE_FLUSH, HOST_TTL, SrvData(0, 0, HTTP_PORT, HostName(host)))
  }

  function AddressRecord(host: seq<byte>, addr: seq<byte>): Record {
    Record(HostName(host), CLASS_IN + CACHE_FLUSH, HOST_TTL, AData(addr))
  }

  function Announcement(host: seq<byte>, addr: seq<byte>): Message {
    Message(0, 0x8400, [PtrRecord(host), TxtRecord(host), SrvRecord(host), AddressRecord(host, addr)])
  }

  /** A buffer and the offset the put functions share. */
  class Packet {
    const buf: array<byte>
    var offset: nat

    constructor (buf: array<byte>)
      ensures this.buf == buf && offset == 0 && Written() == []
    {
      this.buf, offset := buf, 0;
    }

    ghost function Written(): seq<byte>
      requires offset <= buf.Length
      reads this, buf
    {
      buf[..offset]
    }

    /** put_u16. */
    method PutU16(value: nat)
      requires offset + 2 <= buf.Length && value < 0x1_0000
      modifies this, buf
      ensures offset == old(offset) + 2 && Written() == old(Written()) + U16(value)
    {
      U16Octets(value);
      hide U16;
      ghost var before := buf[..offset];
      buf[offset] := (value / 256) as byte;
      buf[offset + 1] := (value % 256) as byte;
      offset := offset + 2;
      assert buf[..offset] == before + U16(value);
    }

    /** put_u32. */
    method PutU32(value: nat)
      requires offset + 4 <= buf.Length && value < 0x1_0000_0000
      modifies this, buf
      ensures offset == old(offset) + 4 && Written() == old(Written()) + U32(value)
    {
      PutU16(value / 0x1_0000);
      LowWord(value);
      PutU16(value % 0x1_0000);
    }

    /** put_bytes. */
    method PutBytes(data: seq<byte>)
      requires offset + |data| <= buf.Length
      modifies this, buf
      ensures offset == old(offset) + |data| && Written() == old(Written()) + data
    {
      ghost var before := buf[..offset];
      forall k | 0 <= k < |data| {
        buf[offset + k] := data[k];
      }
      offset := offset + |data|;
      assert buf[..offset] == before + data;
    }

    /** put_label. */
    method PutLabel(text: Label)
      requires offset + 1 + |text| <= buf.Length && |text| < 256
      modifies this, buf
      ensures offset == old(offset) + 1 + |text| && Written() == old(Written()) + Counted(text)
    {
      PutBytes([|text| as byte]);
      PutBytes(text);
    }

    /** put_host_name, put_http_service_name and put_http_instance_name: labels and a zero. */
    method PutName(name: Name)
      requires offset + |NameBytes(name)| <= buf.Length && forall l :: l in name ==> |l| < 256
      modifies this, buf
      ensures offset == old(offset) + |NameBytes(name)| && Written() == old(Written()) + NameBytes(name)
    {
      hide Counted;
      ghost var before := Written();
      for i := 0 to |name|
        invariant offset + |CountedAll(name[i..])| + 1 <= buf.Length
        invariant Written() + CountedAll(name[i..]) == before + CountedAll(name)
      {
        assert name[i..][1..] == name[i + 1..] && name[i] in name;
        ghost var w, rest := Written(), CountedAll(name[i + 1..]);
        PutLabel(name[i]);
        assert w + (Counted(name[i]) + rest) == w + Counted(name[i]) + rest;
      }
      assert Written() + [] == Written();
      PutBytes([0]);
      assert before + CountedAll(name) + [0] == before + (CountedAll(name) + [0]);
    }

    /** put_rr_header. */
    method PutRrHeader(typ: nat, class_: nat, ttl: nat, rdlength: nat)
      requires offset + 10 <= buf.Length
      requires typ < 0x1_0000 && class_ < 0x1_0000 && ttl < 0x1_0000_0000 && rdlength < 0x1_0000
      modifies this, buf
      ensures offset == old(offset) + 10
      ensures Written() == old(Written()) + (U16(typ) + U16(class_) + U32(ttl) + U16(rdlength))
    {
      hide U16, U32;
      PutU16(typ);
      PutU16(class_);
      PutU32(ttl);
      PutU16(rdlength);
    }

    /** sys_put_be16 into the length field of a record. */
    method Patch(at: nat, value: nat)
      requires at + 2 <= offset <= buf.Length && value < 0x1_0000
      modifies buf
      ensures Written() == old(Written())[..at] + U16(value) + old(Written())[at + 2..]
    {
      U16Octets(value);
      hide U16;
      buf[at] := (value / 256) as byte;
      buf[at + 1] := (value % 256) as byte;
    }

    /** The data of the SRV record. */
    method PutService(priority: nat, weight: nat, port: nat, target: Name)
      requires GoodData(SrvData(priority, weight, port, target))
      requires offset + 6 + |NameBytes(target)| <= buf.Length
      modifies this, buf
      ensures offset == old(offset) + 6 + |NameBytes(target)|
      ensures Written() == old(Written()) + (U16(priority) + U16(weight) + U16(port) + NameBytes(target))
    {
      hide U16, NameBytes, DataBytes;
      PutU16(priority);
      PutU16(weight);
      PutU16(port);
      PutName(target);
    }

    /** The octets of a record's data. */
    method PutData(d: Data)
      requires GoodData(d) && offset + |DataBytes(d)| <= buf.Length
      modifies this, buf
      ensures offset == old(offset) + |DataBytes(d)| && Written() == old(Written()) + DataBytes(d)
    {
      hide U16, NameBytes, Counted;
      match d {
        case PtrData(name) =>
          PutName(name);
        case TxtData(strings) =>
          PutBytes(CountedAll(strings));
        case SrvData(priority, weight, port, target) =>
          PutService(priority, weight, port, target);
        case AData(address) =>
          PutBytes(address);
      }
    }

    /** One record: its header with a zero length, its data, and the length patched in. */
    method PutRecord(r: Record)
      requires GoodRecord(r) && offset + |RecordBytes(r)| <= buf.Length
      modifies this, buf
      ensures offset == old(offset) + |RecordBytes(r)| && Written() == old(Written()) + RecordBytes(r)
    {
      hide U16, U32, NameBytes, DataBytes, GoodData;
      ghost var before, header := Written(), U16(TypeOf(r.data)) + U16(r.class_) + U32(r.ttl);
      PutName(r.name);
      ghost var named := Written();
      var rdlengthOffset := offset + 8;
      PutRrHeader(TypeOf(r.data), r.class_, r.ttl, 0);
      PutCountedData(r.data, rdlengthOffset, named + header);
      ghost var d := DataBytes(r.data);
      assert before + NameBytes(r.name) + header + U16(|d|) + d ==
             before + (NameBytes(r.name) + (header + U16(|d|) + d));
    }

    /** The data behind a zero length, and the length patched in, at an offset remembered before. */
    method PutCountedData(d: Data, rdlengthOffset: nat, ghost before: seq<byte>)
      requires GoodData(d) && offset == rdlengthOffset + 2 && offset + |DataBytes(d)| <= buf.Length
      requires Written() == before + U16(0)
      modifies this, buf
      ensures offset == old(offset) + |DataBytes(d)|
      ensures Written() == before + U16(|DataBytes(d)|) + DataBytes(d)
    {
      hide U16, NameBytes, DataBytes;
      var rdataStart := offset;
      PutData(d);
      ghost var was := Written();
      Patch(rdlengthOffset, offset - rdataStart);
      PatchedLength(before, U16(0), DataBytes(d), U16(|DataBytes(d)|), was);
    }

    /** The address record, whose length is known beforehand. */
    method PutAddress(r: Record)
      requires GoodRecord(r) && r.data.AData? && offset + |RecordBytes(r)| <= buf.Length
      modifies this, buf
      ensures offset == old(offset) + |RecordBytes(r)| && Written() == old(Written()) + RecordBytes(r)
    {
      hide U16, U32, NameBytes;
      PutName(r.name);
      PutRrHeader(A, r.class_, r.ttl, 4);
      PutBytes(r.data.address);
    }

    /** build_mdns_http_announcement. */
    method Build(host: seq<byte>, addr: seq<byte>)
      requires offset == 0 && 1 <= |host| <= 63 && |addr| == 4 && buf.Length >= 160 + 5 * |host|
      modifies this, buf
      ensures offset == 160 + 5 * |host| && Written() == MessageBytes(Announcement(host, addr))
    {
      hide RecordBytes, GoodRecord, U16, PtrRecord, TxtRecord, SrvRecord, AddressRecord, MessageBytes;
      AnnouncementIsGood(host, addr);
      Layout(host, addr);
      PutU16(0);
      PutU16(0x8400);
      PutU16(0);
      PutU16(4);
      PutU16(0);
      PutU16(0);
      PutRecord(PtrRecord(host));
      PutRecord(TxtRecord(host));
      PutRecord(SrvRecord(host));
      PutAddress(AddressRecord(host, addr));
    }
  }

  /** The patch turns the zero length into the right one and touches nothing else. */
  lemma PatchedLength(w: seq<byte>, zero: seq<byte>, d: seq<byte>, len: seq<byte>, was: seq<byte>)
    requires |zero| == 2 && |len| == 2 && was == w + zero + d
    ensures was[..|w|] + len + was[|w| + 2..] == w + len + d
  {
  }

  lemma AnnouncementIsGood(host: seq<byte>, addr: seq<byte>)
    requires 1 <= |host| <= 63 && |addr| == 4
    ensures GoodMessage(Announcement(host, addr)) && AddressRecord(host, addr).data.AData?
    ensures GoodRecord(PtrRecord(host)) && GoodRecord(TxtRecord(host)) && GoodRecord(SrvRecord(host)) &&
            GoodRecord(AddressRecord(host, addr))
  {
    NameLengths(host);
    StringsLength();
    hide NameBytes, CountedAll, Ascii;
  }

  lemma StringsLength()
    ensures |CountedAll([Ascii("path=/")])| == 7
  {
    var t := Ascii("path=/");
    assert [t][1..] == [];
    assert CountedAll([t]) == Counted(t) + CountedAll([]);
  }

  lemma CountedCons(l: Label, ls: seq<Label>)
    ensures |CountedAll([l] + ls)| == 1 + |l| + |CountedAll(ls)|
  {
    assert ([l] + ls)[1..] == ls;
  }

  lemma NameLengths(host: seq<byte>)
    ensures |NameBytes(HostName(host))| == 8 + |host|
    ensures |NameBytes(ServiceName())| == 18
    ensures |NameBytes(InstanceName(host))| == 19 + |host|
  {
    var local, tcp, http := Ascii("local"), Ascii("_tcp"), Ascii("_http");
    CountedCons(local, []);
    CountedCons(tcp, [local]);
    CountedCons(http, [tcp, local]);
    CountedCons(host, [local]);
    CountedCons(host, [http, tcp, local]);
    assert [local] + [] == [local] && [tcp] + [local] == [tcp, local] && [http] + [tcp, local] == [http, tcp, local];
    assert [host] + [local] == [host, local] && [host] + [http, tcp, local] == [host, http, tcp, local];
  }

  lemma RecordLength(r: Record)
    ensures |RecordBytes(r)| == |NameBytes(r.name)| + 10 + |DataBytes(r.data)|
  {
  }

  /** The octets of the announcement, piece by piece, and how many there are. */
  lemma Layout(host: seq<byte>, addr: seq<byte>)
    requires |addr| == 4
    ensures var p, t, s, a := RecordBytes(PtrRecord(host)), RecordBytes(TxtRecord(host)),
        RecordBytes(SrvRecord(host)), RecordBytes(AddressRecord(host, addr));
      && |p| == 47 + |host| && |t| == 36 + |host| && |s| == 43 + 2 * |host| && |a| == 22 + |host|
      && MessageBytes(Announcement(host, addr)) ==
         [] + U16(0) + U16(0x8400) + U16(0) + U16(4) + U16(0) + U16(0) + p + t + s + a
  {
    var rp, rt, rs, ra := PtrRecord(host), TxtRecord(host), SrvRecord(host), AddressRecord(host, addr);
    NameLengths(host);
    StringsLength();
    RecordLength(rp);
    RecordLength(rt);
    RecordLength(rs);
    RecordLength(ra);
    FourRecords(rp, rt, rs, ra);
    hide RecordBytes, RecordsBytes, U16, NameBytes, Ascii;
    var h := U16(0) + U16(0x8400) + U16(0) + U16(4) + U16(0) + U16(0);
    var p, t, s, a := RecordBytes(rp), RecordBytes(rt), RecordBytes(rs), RecordBytes(ra);
    assert [] + U16(0) == U16(0);
    assert h + (p + t + s + a) == h + p + t + s + a;
  }

  lemma FourRecords(p: Record, t: Record, s: Record, a: Record)
    ensures RecordsBytes([p, t, s, a]) == RecordBytes(p) + RecordBytes(t) + RecordBytes(s) + RecordBytes(a)
  {
    hide RecordBytes;
    assert [p, t, s, a][1..] == [t, s, a] && [t, s, a][1..] == [s, a] && [s, a][1..] == [a] && [a][1..] == [];
    assert RecordsBytes([a]) == RecordBytes(a) + [];
    assert RecordsBytes([s, a]) == RecordBytes(s) + RecordsBytes([a]);
    assert RecordsBytes([t, s, a]) == RecordBytes(t) + RecordsBytes([s, a]);
  }

  /** Reading the packet gives back the intended message: one header announcing four answers, and
      the PTR, TXT, SRV and A records with data of exactly the patched lengths. */
  lemma AnnouncementReads(host: seq<byte>, addr: seq<byte>)
    requires 1 <= |host| <= 63 && |addr| == 4
    ensures ReadMessage(MessageBytes(Announcement(host, addr))) == Some(Announcement(host, addr))
  {
    AnnouncementIsGood(host, addr);
    ReadMessageOf(Announcement(host, addr));
  }

  /** The message a receiver finds, label by label and number by number. */
  lemma AnnouncementSays(host: seq<byte>, addr: seq<byte>)
    requires 1 <= |host| <= 63 && |addr| == 4
    ensures
      var local, tcp, http := [0x6c, 0x6f, 0x63, 0x61, 0x6c], [0x5f, 0x74, 0x63, 0x70], [0x5f, 0x68, 0x74, 0x74, 0x70];
      ReadMessage(MessageBytes(Announcement(host, addr))) ==
      Some(Message(0, 0x8400, [
        Record([http, tcp, local], 0x0001, 4500, PtrData([host, http, tcp, local])),
        Record([host, http, tcp, local], 0x8001, 4500, TxtData([[0x70, 0x61, 0x74, 0x68, 0x3d, 0x2f]])),
        Record([host, http, tcp, local], 0x8001, 120, SrvData(0, 0, 80, [host, local])),
        Record([host, local], 0x8001, 120, AData(addr))]))
  {
    AnnouncementReads(host, addr);
    Labels();
    hide MessageBytes, ReadMessage, Ascii;
  }

  lemma Labels()
    ensures Ascii("local") == [0x6c, 0x6f, 0x63, 0x61, 0x6c] && Ascii("_tcp") == [0x5f, 0x74, 0x63, 0x70]
    ensures Ascii("_http") == [0x5f, 0x68, 0x74, 0x74, 0x70] && Ascii("path=/") == [0x70, 0x61, 0x74, 0x68, 0x3d, 0x2f]
  {
  }

  /** On the wire: the response flags and the count of four in front, the address octets in order at
      the end. */
  lemma AnnouncementOctets(host: seq<byte>, addr: seq<byte>)
    requires 1 <= |host| <= 63 && |addr| == 4
    ensures var b := MessageBytes(Announcement(host, addr));
      |b| > 16 && b[..12] == [0, 0, 0x84, 0, 0, 0, 0, 4, 0, 0, 0, 0] && b[|b| - 4..] == addr
  {
    Layout(host, addr);
    EndsInAddress(host, addr);
    HeaderOctets();
    hide MessageBytes, RecordBytes, U16, PtrRecord, TxtRecord, SrvRecord, AddressRecord, Announcement;
    var p, t, s, a := RecordBytes(PtrRecord(host)), RecordBytes(TxtRecord(host)),
      RecordBytes(SrvRecord(host)), RecordBytes(AddressRecord(host, addr));
    FrontAndEnd([] + U16(0) + U16(0x8400) + U16(0) + U16(4) + U16(0) + U16(0), p, t, s, a);
  }

  lemma FrontAndEnd(h: seq<byte>, p: seq<byte>, t: seq<byte>, s: seq<byte>, a: seq<byte>)
    requires |h| == 12 && |a| > 4
    ensures var b := h + p + t + s + a; |b| > 16 && b[..12] == h && b[|b| - 4..] == a[|a| - 4..]
  {
  }

  lemma HeaderOctets()
    ensures [] + U16(0) + U16(0x8400) + U16(0) + U16(4) + U16(0) + U16(0) == [0, 0, 0x84, 0, 0, 0, 0, 4, 0, 0, 0, 0]
  {
    assert U16(0) == [0, 0] && U16(0x8400) == [0x84, 0] && U16(4) == [0, 4];
    hide U16;
  }

  lemma EndsInAddress(host: seq<byte>, addr: seq<byte>)
    requires |addr| == 4
    ensures var r := RecordBytes(AddressRecord(host, addr)); |r| >= 4 && r[|r| - 4..] == addr
  {
    hide NameBytes, U16, U32;
  }

  /** The 384-octet packet of the announcing thread has room exactly for labels up to 44 octets. */
  lemma FitsPacket(host: seq<byte>, addr: seq<byte>)
    requires |addr| == 4
    ensures |MessageBytes(Announcement(host, addr))| == 160 + 5 * |host|
    ensures |MessageBytes(Announcement(host, addr))| <= PACKET_MAX <==> |host| <= 44
  {
    Layout(host, addr);
    hide MessageBytes, RecordBytes, Announcement;
  }
}
