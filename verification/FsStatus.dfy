/** A reader for the file system status, and that it finds the state of the mount and the figures. */
module FsStatus {
  import opened Bytes
  import opened Decimal
  import CanJson
  import Storage

  datatype Status = Status(ok: bool, attempted: bool, mounted: bool, mountRet: int, totalKib: nat, freeKib: nat)

  function Read(s: string): Option<Status>
  {
    match CanJson.Strip("{\"type\":\"fs.status\",\"ok\":", s)
    case None => None
    case Some(s1) =>
      match ReadFlags(s1)
      case None => None
      case Some((ok, attempted, mounted, s2)) =>
        match ReadFigures(s2)
        case None => None
        case Some((ret, total, free)) => Some(Status(ok, attempted, mounted, ret, total, free))
  }

  function ReadFlags(s: string): Option<(bool, bool, bool, string)>
  {
    match CanJson.ReadBool(s)
    case None => None
    case Some((ok, s1)) =>
      match CanJson.Strip(",\"attempted\":", s1)
      case None => None
      case Some(s2) =>
        match CanJson.ReadBool(s2)
        case None => None
        case Some((attempted, s3)) =>
          match CanJson.Strip(",\"mounted\":", s3)
          case None => None
          case Some(s4) =>
            match CanJson.ReadBool(s4)
            case None => None
            case Some((mounted, s5)) => Some((ok, attempted, mounted, s5))
  }

  function ReadFigures(s: string): Option<(int, nat, nat)>
  {
    match CanJson.Strip(",\"mountRet\":", s)
    case None => None
    case Some(s1) =>
      match CanJson.ReadInt(s1)
      case None => None
      case Some((ret, s2)) =>
        match CanJson.Strip(",\"path\":\"/lfs\",\"totalKiB\":", s2)
        case None => None
        case Some(s3) =>
          match ReadNat(s3)
          case None => None
          case Some((total, s4)) =>
            match CanJson.Strip(",\"freeKiB\":", s4)
            case None => None
            case Some(s5) =>
              match ReadNat(s5)
              case None => None
              case Some((free, s6)) => if s6 == "}" then Some((ret, total, free)) else None
  }

  lemma FlagsOf(ok: bool, attempted: bool, mounted: bool, t: string)
    ensures ReadFlags(BoolText(ok) + (",\"attempted\":" + (BoolText(attempted) +
            (",\"mounted\":" + (BoolText(mounted) + t))))) == Some((ok, attempted, mounted, t))
  {
    hide CanJson.Strip, CanJson.ReadBool, BoolText;
    var s4 := BoolText(mounted) + t;
    var s3 := ",\"mounted\":" + s4;
    var s2 := BoolText(attempted) + s3;
    var s1 := ",\"attempted\":" + s2;
    CanJson.ReadBoolOf(ok, s1);
    CanJson.StripOf(",\"attempted\":", s2);
    CanJson.ReadBoolOf(attempted, s3);
    CanJson.StripOf(",\"mounted\":", s4);
    CanJson.ReadBoolOf(mounted, t);
  }

  lemma FiguresOf(ret: int, total: nat, free: nat)
    ensures ReadFigures(",\"mountRet\":" + (DecInt(ret) + (",\"path\":\"/lfs\",\"totalKiB\":" + (Dec(total) +
            (",\"freeKiB\":" + (Dec(free) + "}")))))) == Some((ret, total, free))
  {
    hide CanJson.Strip, CanJson.ReadInt, ReadNat, Dec, DecInt;
    var s5 := Dec(free) + "}";
    var s4 := ",\"freeKiB\":" + s5;
    var s3 := Dec(total) + s4;
    var s2 := ",\"path\":\"/lfs\",\"totalKiB\":" + s3;
    var s1 := DecInt(ret) + s2;
    CanJson.StripOf(",\"mountRet\":", s1);
    CanJson.ReadIntOf(ret, s2);
    CanJson.StripOf(",\"path\":\"/lfs\",\"totalKiB\":", s3);
    ReadDec(total, s4);
    CanJson.StripOf(",\"freeKiB\":", s5);
    ReadDec(free, "}");
  }

  /** A reader of the status finds what it was made of. */
  lemma StatusReads(mounted: bool, attempted: bool, mountRet: int, totalKib: nat, freeKib: nat)
    ensures Read(Storage.StatusText(mounted, attempted, mountRet, totalKib, freeKib)) ==
            Some(Status(mounted, attempted, mounted, mountRet, totalKib, freeKib))
  {
    hide CanJson.Strip, ReadFlags, ReadFigures, BoolText, Dec, DecInt;
    var figures := ",\"mountRet\":" + (DecInt(mountRet) + (",\"path\":\"/lfs\",\"totalKiB\":" + (Dec(totalKib) +
                   (",\"freeKiB\":" + (Dec(freeKib) + "}")))));
    var flags := BoolText(mounted) + (",\"attempted\":" + (BoolText(attempted) + (",\"mounted\":" +
                 (BoolText(mounted) + figures))));
    CanJson.StripOf("{\"type\":\"fs.status\",\"ok\":", flags);
    FlagsOf(mounted, attempted, mounted, figures);
    FiguresOf(mountRet, totalKib, freeKib);
  }
}
