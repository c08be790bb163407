/** The JSON texts of transmitted and received frames: the append-style printers of can_bridge.c,
    their fixed schema, and a reader for it. */
module CanJson {
  import opened Bytes
  import opened Decimal

  const ENOMEM := -12
  const WS_RESPONSE_MAX: nat := 512

  /** The answer to a queued frame, or a frame received. */
  datatype Kind = Tx | Rx

  /** The fields printed; `ts` is a 64-bit time stamp. */
  datatype Record = Record(id: nat, ext: bool, rtr: bool, dlc: nat, data: seq<nat>, ts: int)

  function Head(k: Kind): string
  {
    if k == Tx then "{\"type\":\"can.tx\",\"ok\":true,\"bus\":0,\"id\":" else "{\"type\":\"can.rx\",\"bus\":0,\"id\":"
  }

  function Tail(k: Kind): string
  {
    if k == Tx then "],\"queued\":true,\"ts\":" else "],\"ts\":"
  }

  /** The text up to the opening bracket of the data list, followed by rest. */
  function Front(k: Kind, r: Record, rest: string): string
  {
    Head(k) + (Dec(r.id) + (",\"ext\":" + (BoolText(r.ext) + (",\"rtr\":" + (BoolText(r.rtr) +
    (",\"dlc\":" + (Dec(r.dlc) + (",\"data\":[" + rest))))))))
  }

  /** The data list from item i on, with the commas the printer puts before all but the first. */
  function Items(d: seq<nat>, i: nat): string
    decreases |d| - i
  {
    if i >= |d| then "" else (if i == 0 then "" else ",") + (Dec(d[i]) + Items(d, i + 1))
  }

  function Back(k: Kind, r: Record): string
  {
    Tail(k) + (DecInt(r.ts) + "}")
  }

  function Text(k: Kind, r: Record): string
  {
    Front(k, r, Items(r.data, 0) + Back(k, r))
  }

  /** Strips a literal. */
  function Strip(lit: string, s: string): Option<string>
  {
    if lit <= s then Some(s[|lit|..]) else None
  }

  function ReadBool(s: string): Option<(bool, string)>
  {
    if "true" <= s then Some((true, s[4..])) else if "false" <= s then Some((false, s[5..])) else None
  }

  function ReadInt(s: string): Option<(int, string)>
  {
    if "-" <= s then
      match ReadNat(s[1..])
      case None => None
      case Some((n, t)) => Some((0 - n as int, t))
    else
      match ReadNat(s)
      case None => None
      case Some((n, t)) => Some((n, t))
  }

  /** The items after the first, each behind its comma. */
  function ReadMore(s: string): Option<(seq<nat>, string)>
    decreases |s|
  {
    if |s| == 0 || s[0] != ',' then Some(([], s))
    else match ReadNat(s[1..])
      case None => None
      case Some((n, t)) =>
        if |t| >= |s| then None
        else match ReadMore(t)
          case None => None
          case Some((d, u)) => Some(([n] + d, u))
  }

  function ReadItems(s: string): Option<(seq<nat>, string)>
  {
    if |s| > 0 && s[0] == ']' then Some(([], s))
    else match ReadNat(s)
      case None => None
      case Some((n, t)) =>
        match ReadMore(t)
        case None => None
        case Some((d, u)) => Some(([n] + d, u))
  }

  /** A reader for the schema: the fields in order, and nothing after the closing brace. */
  function Read(k: Kind, s: string): Option<Record>
  {
    match Strip(if k == Tx then "{\"type\":\"can.tx\",\"ok\":true,\"bus\":0,\"id\":"
                else "{\"type\":\"can.rx\",\"bus\":0,\"id\":", s)
    case None => None
    case Some(s1) =>
      match ReadFlags(s1)
      case None => None
      case Some((id, ext, rtr, dlc, s2)) =>
        match ReadItems(s2)
        case None => None
        case Some((data, s3)) =>
          match Strip(if k == Tx then "],\"queued\":true,\"ts\":" else "],\"ts\":", s3)
          case None => None
          case Some(s4) =>
            match ReadInt(s4)
            case None => None
            case Some((ts, s5)) => if s5 == "}" then Some(Record(id, ext, rtr, dlc, data, ts)) else None
  }

  function ReadFlags(s: string): Option<(nat, bool, bool, nat, string)>
  {
    match ReadNat(s)
    case None => None
    case Some((id, s1)) =>
      match Strip(",\"ext\":", s1)
      case None => None
      case Some(s2) =>
        match ReadBool(s2)
        case None => None
        case Some((ext, s3)) =>
          match Strip(",\"rtr\":", s3)
          case None => None
          case Some(s4) =>
            match ReadBool(s4)
            case None => None
            case Some((rtr, s5)) =>
              match Strip(",\"dlc\":", s5)
              case None => None
              case Some(s6) =>
                match ReadNat(s6)
                case None => None
                case Some((dlc, s7)) =>
                  match Strip(",\"data\":[", s7)
                  case None => None
                  case Some(s8) => Some((id, ext, rtr, dlc, s8))
  }

  lemma StripOf(lit: string, t: string)
    ensures Strip(lit, lit + t) == Some(t)
  {
  }

  lemma ReadBoolOf(b: bool, t: string)
    ensures ReadBool(BoolText(b) + t) == Some((b, t))
  {
    var s := BoolText(b) + t;
    if !b {
      assert s[0] == 'f';
    }
  }

  lemma ReadIntOf(n: int, t: string)
    requires |t| > 0 && !IsDigit(t[0])
    ensures ReadInt(DecInt(n) + t) == Some((n, t))
  {
    hide Dec, ReadNat;
    if n < 0 {
      assert (DecInt(n) + t)[1..] == Dec(-n) + t;
      ReadDec(-n, t);
    } else {
      assert IsDigit((Dec(n) + t)[0]);
      ReadDec(n, t);
    }
  }

  /** What follows an item starts with a comma or the bracket. */
  lemma ItemsNext(d: seq<nat>, i: nat, t: string)
    requires 1 <= i <= |d| && |t| > 0 && t[0] == ']'
    ensures var u := Items(d, i) + t;
      |u| > 0 && !IsDigit(u[0]) && (i < |d| ==> u == "," + (Dec(d[i]) + (Items(d, i + 1) + t))) &&
      (i == |d| ==> u == t)
  {
  }

  lemma ReadMoreStep(n: nat, u: string)
    requires |u| > 0 && !IsDigit(u[0])
    ensures ReadMore("," + (Dec(n) + u)) ==
      match ReadMore(u)
      case None => None
      case Some((d, v)) => Some(([n] + d, v))
  {
    var s := "," + (Dec(n) + u);
    assert s[1..] == Dec(n) + u;
    ReadDec(n, u);
    hide Dec, ReadNat, IsDigit;
  }

  lemma {:induction false} ReadMoreOf(d: seq<nat>, i: nat, t: string)
    requires 1 <= i <= |d| && |t| > 0 && t[0] == ']'
    ensures ReadMore(Items(d, i) + t) == Some((d[i..], t))
    decreases |d| - i
  {
    hide Dec, Items, ReadMore, IsDigit;
    ItemsNext(d, i, t);
    if i == |d| {
      NoMore(d, t);
    } else {
      ItemsNext(d, i + 1, t);
      ReadMoreOf(d, i + 1, t);
      ReadMoreStep(d[i], Items(d, i + 1) + t);
      FrontOfRest(d, i);
    }
  }

  lemma FrontOfRest(d: seq<nat>, i: nat)
    requires i < |d|
    ensures d[i..] == [d[i]] + d[i + 1..]
  {
  }

  lemma NoMore(d: seq<nat>, t: string)
    requires |t| > 0 && t[0] == ']'
    ensures ReadMore(t) == Some((d[|d|..], t))
  {
    assert d[|d|..] == [];
  }

  lemma ReadItemsStep(n: nat, u: string)
    requires |u| > 0 && !IsDigit(u[0])
    ensures ReadItems(Dec(n) + u) ==
      match ReadMore(u)
      case None => None
      case Some((d, v)) => Some(([n] + d, v))
  {
    ReadDec(n, u);
    assert IsDigit((Dec(n) + u)[0]);
    hide Dec, ReadNat, ReadMore;
  }

  lemma ReadItemsOf(d: seq<nat>, t: string)
    requires |t| > 0 && t[0] == ']'
    ensures ReadItems(Items(d, 0) + t) == Some((d, t))
  {
    if |d| == 0 {
      ReadNoItems(d, t);
    } else {
      hide Dec, Items, ReadMore, ReadItems, IsDigit;
      ItemsNext(d, 1, t);
      FirstItem(d, t);
      ReadItemsStep(d[0], Items(d, 1) + t);
      ReadMoreOf(d, 1, t);
      FrontOfRest(d, 0);
      assert d[0..] == d;
    }
  }

  lemma ReadNoItems(d: seq<nat>, t: string)
    requires |d| == 0 && |t| > 0 && t[0] == ']'
    ensures ReadItems(Items(d, 0) + t) == Some((d, t))
  {
    assert Items(d, 0) + t == t;
  }

  lemma FirstItem(d: seq<nat>, t: string)
    requires |d| > 0
    ensures Items(d, 0) + t == Dec(d[0]) + (Items(d, 1) + t)
  {
    hide Items, Dec;
    ItemsStep(d, 0);
    Regroup(Dec(d[0]), Items(d, 1), t);
  }

  lemma Regroup(a: string, b: string, t: string)
    ensures "" + a + b + t == a + (b + t)
  {
  }

  lemma ReadFlagsOf(r: Record, rest: string)
    ensures ReadFlags(Dec(r.id) + (",\"ext\":" + (BoolText(r.ext) + (",\"rtr\":" + (BoolText(r.rtr) +
      (",\"dlc\":" + (Dec(r.dlc) + (",\"data\":[" + rest)))))))) == Some((r.id, r.ext, r.rtr, r.dlc, rest))
  {
    hide ReadNat, Strip, ReadBool, BoolText, Dec;
    var s7 := ",\"data\":[" + rest;
    var s6 := Dec(r.dlc) + s7;
    var s5 := ",\"dlc\":" + s6;
    var s4 := BoolText(r.rtr) + s5;
    var s3 := ",\"rtr\":" + s4;
    var s2 := BoolText(r.ext) + s3;
    var s1 := ",\"ext\":" + s2;
    ReadDec(r.id, s1);
    StripOf(",\"ext\":", s2);
    ReadBoolOf(r.ext, s3);
    StripOf(",\"rtr\":", s4);
    ReadBoolOf(r.rtr, s5);
    StripOf(",\"dlc\":", s6);
    ReadDec(r.dlc, s7);
    StripOf(",\"data\":[", rest);
  }

  /** Reading inverts printing, so distinct records never share a text. */
  lemma ReadText(k: Kind, r: Record)
    ensures Read(k, Text(k, r)) == Some(r)
  {
    hide ReadFlags, ReadItems, ReadInt, Strip, Items, Dec, DecInt, BoolText;
    var back := Back(k, r);
    var rest := Items(r.data, 0) + back;
    BackShape(k, r);
    ReadFlagsOf(r, rest);
    StripOf(Head(k), Text(k, r)[|Head(k)|..]);
    ReadItemsOf(r.data, back);
    StripOf(Tail(k), DecInt(r.ts) + "}");
    ReadIntOf(r.ts, "}");
    FrontShape(k, r, rest);
  }

  lemma BackShape(k: Kind, r: Record)
    ensures |Back(k, r)| > 0 && Back(k, r)[0] == ']'
  {
  }

  lemma FrontShape(k: Kind, r: Record, rest: string)
    ensures var t := Dec(r.id) + (",\"ext\":" + (BoolText(r.ext) + (",\"rtr\":" + (BoolText(r.rtr) +
      (",\"dlc\":" + (Dec(r.dlc) + (",\"data\":[" + rest)))))));
      Front(k, r, rest) == Head(k) + t && Front(k, r, rest)[|Head(k)|..] == t
  {
  }

  /** snprintk at &buf[off]: the whole length is returned, and as much as fits is stored. */
  method Snprintk(buf: array<char>, off: nat, text: string) returns (ret: nat)
    requires off < buf.Length
    modifies buf
    ensures ret == |text| && buf[..off] == old(buf[..off])
    ensures off + ret < buf.Length ==> buf[off..off + ret] == text && buf[off + ret] == '\0'
  {
    var n := Min(|text|, buf.Length - off - 1);
    for k := 0 to n
      invariant buf[..off] == old(buf[..off]) && buf[off..off + k] == text[..k]
    {
      buf[off + k] := text[k];
    }
    buf[off + n] := '\0';
    ret := |text|;
    assert text[..|text|] == text;
  }

  lemma FrontSplits(k: Kind, r: Record, rest: string)
    ensures Front(k, r, "") + rest == Front(k, r, rest)
  {
    hide Dec, BoolText, Head;
    var a, b, c, d := Dec(r.id), BoolText(r.ext), BoolText(r.rtr), Dec(r.dlc);
    assert ",\"data\":[" + "" + rest == ",\"data\":[" + rest;
  }

  /** The printers: three parts appended with the remaining room tested after each. They succeed
      exactly when the whole text and its NUL fit, and then the buffer holds the text. */
  method Print(k: Kind, r: Record, buf: array<char>) returns (ret: int)
    requires buf.Length > 0
    modifies buf
    ensures ret == 0 || ret == ENOMEM
    ensures ret == 0 <==> |Text(k, r)| < buf.Length
    ensures ret == 0 ==> buf[..|Text(k, r)|] == Text(k, r) && buf[|Text(k, r)|] == '\0'
  {
    hide Front, Items, Back, Dec;
    ghost var back := Back(k, r);
    FrontSplits(k, r, Items(r.data, 0) + back);
    var n := Snprintk(buf, 0, Front(k, r, ""));
    if n >= buf.Length {
      return ENOMEM;
    }
    var off := n;
    assert buf[..off] == buf[0..off];
    var ok;
    ok, off := AppendItems(r.data, buf, off);
    if !ok {
      return ENOMEM;
    }
    n := Snprintk(buf, off, Back(k, r));
    if n >= buf.Length - off {
      return ENOMEM;
    }
    assert buf[..off + n] == buf[..off] + buf[off..off + n];
    assert Text(k, r) == Front(k, r, "") + Items(r.data, 0) + back;
    ret := 0;
  }

  /** The loop over the data: all items appended, or one that did not fit. */
  method AppendItems(d: seq<nat>, buf: array<char>, start: nat) returns (ok: bool, off: nat)
    requires start < buf.Length
    modifies buf
    ensures ok <==> start + |Items(d, 0)| < buf.Length
    ensures ok ==> off == start + |Items(d, 0)| && buf[..off] == old(buf[..start]) + Items(d, 0)
  {
    hide Items;
    off := start;
    ghost var front := buf[..start];
    ghost var done := "";
    for i := 0 to |d|
      invariant off == start + |done| < buf.Length && buf[..off] == front + done
      invariant Items(d, 0) == done + Items(d, i)
    {
      ItemsStep(d, i);
      ghost var item, next := ItemText(d, i), Items(d, i + 1);
      assert done + (item + next) == done + item + next;
      assert front + (done + item) == front + done + item;
      var n := Snprintk(buf, off, ItemText(d, i));
      if n >= buf.Length - off {
        return false, off;
      }
      assert buf[..off + n] == buf[..off] + buf[off..off + n];
      off := off + n;
      done := done + item;
    }
    ItemsEnd(d);
    assert done + "" == done;
    ok := true;
  }

  /** What one iteration prints. */
  function ItemText(d: seq<nat>, i: nat): string
    requires i < |d|
  {
    (if i == 0 then "" else ",") + Dec(d[i])
  }

  lemma ItemsStep(d: seq<nat>, i: nat)
    requires i < |d|
    ensures Items(d, i) == ItemText(d, i) + Items(d, i + 1)
  {
  }

  lemma ItemsEnd(d: seq<nat>)
    ensures Items(d, |d|) == ""
  {
  }

  /** What frames and requests put into a record: a 29-bit identifier at most (32 bits allowed
      here), one-octet lengths and data, at most eight items, a 64-bit time stamp. */
  predicate Small(r: Record)
  {
    && r.id < 0x1_0000_0000 && r.dlc < 256 && |r.data| <= 8
    && (forall i :: 0 <= i < |r.data| ==> r.data[i] < 256)
    && -0x8000_0000_0000_0000 <= r.ts < 0x8000_0000_0000_0000
  }

  lemma {:induction false} ItemsLength(d: seq<nat>, i: nat)
    requires i <= |d| && forall j :: 0 <= j < |d| ==> d[j] < 256
    ensures |Items(d, i)| <= 4 * (|d| - i)
    decreases |d| - i
  {
    if i < |d| {
      assert Pow10(3) == 1000;
      DecLength(d[i], 3);
      ItemsLength(d, i + 1);
    }
  }

  /** Every such text fits the 512-octet response, so -ENOMEM is never returned for one and no
      frame taken from the queue is lost. */
  lemma TextFits(k: Kind, r: Record)
    requires Small(r)
    ensures |Text(k, r)| < WS_RESPONSE_MAX
  {
    var rest := Items(r.data, 0) + Back(k, r);
    ItemsLength(r.data, 0);
    FrontLength(k, r, rest);
    StampLength(r.ts);
    hide Items, Dec, DecInt, Front;
  }

  lemma FrontLength(k: Kind, r: Record, rest: string)
    requires r.id < 0x1_0000_0000 && r.dlc < 256
    ensures |Front(k, r, rest)| <= 100 + |rest|
  {
    assert Pow10(3) == 1000;
    assert Pow10(6) == 1000 * Pow10(3);
    assert Pow10(10) == 10000 * Pow10(6);
    DecLength(r.id, 10);
    DecLength(r.dlc, 3);
    hide Dec;
  }

  lemma StampLength(ts: int)
    requires -0x8000_0000_0000_0000 <= ts < 0x8000_0000_0000_0000
    ensures |DecInt(ts)| <= 20
  {
    assert Pow10(4) == 10000;
    assert Pow10(8) == 10000 * Pow10(4);
    assert Pow10(12) == 10000 * Pow10(8);
    assert Pow10(16) == 10000 * Pow10(12);
    assert Pow10(19) == 1000 * Pow10(16);
    DecLength(if ts < 0 then -ts else ts, 19);
  }
}
