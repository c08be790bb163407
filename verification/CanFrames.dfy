/** CAN frames, the parsed JSON requests they come from, and the validation between the two. */
module CanFrames {
  import opened Bytes

  const CAN_MAX_DLC: nat := 8
  const CAN_STD_ID_MASK: nat := 0x7ff
  const CAN_EXT_ID_MASK: nat := 0x1fff_ffff

  /** struct can_frame: the two flags in use, and always eight data octets. */
  datatype CanFrame = CanFrame(id: nat, ide: bool, rtr: bool, dlc: nat, data: seq<byte>)

  datatype Field =
    TypeField | BusField | IdField | ExtField | RtrField | DlcField | DataField | BitrateField | ModeField

  /** struct can_json_message after json_obj_parse, with the fields it found. */
  datatype Message = Message(
    fields: set<Field>, typ: string, bus: int, id: int, ext: bool, rtr: bool, dlc: int, data: seq<int>,
    bitrate: int, mode: string)

  /** What json_obj_parse promises: at most eight data numbers, and zero for what is absent. */
  predicate Parsed(m: Message)
  {
    |m.data| <= CAN_MAX_DLC && (DataField !in m.fields ==> m.data == [])
  }

  datatype Refusal =
    MissingField | UnsupportedBus | InvalidDlc | InvalidId | MissingData | DataLengthMismatch | RtrHasData | InvalidData

  /** The error codes of answers that leave everything as it was. */
  datatype Code = PayloadTooLarge | InvalidJson | UnsupportedType | InvalidBitrate | InvalidMode | Broken(rule: Refusal)

  /** The field rules of the protocol document. */
  predicate FollowsRules(m: Message)
  {
    && {BusField, IdField, DlcField} <= m.fields
    && m.bus == 0
    && 0 <= m.dlc <= 8
    && 0 <= m.id <= (if m.ext then 0x1fff_ffff else 0x7ff)
    && (!m.rtr && m.dlc > 0 ==> DataField in m.fields)
    && |m.data| == (if m.rtr then 0 else m.dlc)
    && forall i :: 0 <= i < |m.data| ==> 0 <= m.data[i] <= 255
  }

  /** The rules that a refusal says were broken. */
  predicate Breaks(m: Message, r: Refusal)
  {
    match r
    case MissingField => !({BusField, IdField, DlcField} <= m.fields)
    case UnsupportedBus => m.bus != 0
    case InvalidDlc => m.dlc < 0 || m.dlc > CAN_MAX_DLC
    case InvalidId => m.id < 0 || m.id > if m.ext then CAN_EXT_ID_MASK else CAN_STD_ID_MASK
    case MissingData => !m.rtr && m.dlc > 0 && DataField !in m.fields
    case DataLengthMismatch => !m.rtr && |m.data| != m.dlc
    case RtrHasData => m.rtr && DataField in m.fields && |m.data| > 0
    case InvalidData => exists i :: 0 <= i < |m.data| && !(0 <= m.data[i] <= 255)
  }

  function Rank(r: Refusal): nat
  {
    match r
    case MissingField => 0
    case UnsupportedBus => 1
    case InvalidDlc => 2
    case InvalidId => 3
    case MissingData => 4
    case DataLengthMismatch => 5
    case RtrHasData => 6
    case InvalidData => 7
  }

  /** validate_can_json: a message passes exactly when it follows the rules; otherwise the answer
      names the first broken rule. */
  method Validate(m: Message) returns (r: Option<Refusal>)
    requires Parsed(m)
    ensures r.None? <==> FollowsRules(m)
    ensures r.Some? ==> Breaks(m, r.value)
    ensures r.Some? ==> forall q :: Rank(q) < Rank(r.value) ==> !Breaks(m, q)
  {
    var hasData := DataField in m.fields;
    if BusField !in m.fields || IdField !in m.fields || DlcField !in m.fields {
      return Some(MissingField);
    }
    if m.bus != 0 {
      return Some(UnsupportedBus);
    }
    if m.dlc < 0 || m.dlc > CAN_MAX_DLC {
      return Some(InvalidDlc);
    }
    if m.id < 0 || (!m.ext && m.id > CAN_STD_ID_MASK) || (m.ext && m.id > CAN_EXT_ID_MASK) {
      return Some(InvalidId);
    }
    if !m.rtr && m.dlc > 0 && !hasData {
      return Some(MissingData);
    }
    if !m.rtr && |m.data| != m.dlc {
      return Some(DataLengthMismatch);
    }
    if m.rtr && hasData && |m.data| > 0 {
      return Some(RtrHasData);
    }
    for i := 0 to |m.data|
      invariant forall j :: 0 <= j < i ==> 0 <= m.data[j] <= 255
    {
      if m.data[i] < 0 || m.data[i] > 0xff {
        return Some(InvalidData);
      }
    }
    r := None;
  }

  /** A frame the controller may be given: the identifier fits its format, a remote frame carries
      no data, and every octet beyond the data is zero. */
  predicate ValidFrame(f: CanFrame)
  {
    && f.id <= (if f.ide then 0x1fff_ffff else 0x7ff)
    && f.dlc <= 8 && |f.data| == 8
    && forall i :: (if f.rtr then 0 else f.dlc) <= i < 8 ==> f.data[i] == 0
  }

  /** The frame says what the message asked for. */
  predicate Carries(f: CanFrame, m: Message)
  {
    && f.id == m.id && f.ide == m.ext && f.rtr == m.rtr && f.dlc == m.dlc && |m.data| <= |f.data|
    && forall i :: 0 <= i < |m.data| ==> f.data[i] as int == m.data[i]
  }

  /** The frame built by can_bridge_handle_ws_text from a validated message. */
  method BuildFrame(m: Message) returns (f: CanFrame)
    requires FollowsRules(m)
    ensures ValidFrame(f) && Carries(f, m)
  {
    var data := new byte[CAN_MAX_DLC](_ => 0);
    for i := 0 to |m.data|
      invariant forall j :: 0 <= j < i ==> data[j] as int == m.data[j]
      invariant forall j :: i <= j < CAN_MAX_DLC ==> data[j] == 0
    {
      data[i] := m.data[i] as byte;
    }
    f := CanFrame(m.id, m.ext, m.rtr, m.dlc, data[..]);
  }

  /** Nothing is lost or invented: two messages carried by one frame agree in every field sent. */
  lemma CarriesAll(f: CanFrame, m: Message, n: Message)
    requires FollowsRules(m) && FollowsRules(n) && Carries(f, m) && Carries(f, n)
    ensures m.id == n.id && m.ext == n.ext && m.rtr == n.rtr && m.dlc == n.dlc && m.data == n.data
  {
    assert |m.data| == |n.data|;
    assert forall i :: 0 <= i < |m.data| ==> m.data[i] == f.data[i] as int == n.data[i];
  }
}
