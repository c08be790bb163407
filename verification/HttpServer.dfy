/** The HTTP thread: one client at a time, from its request to the close of its descriptor. */
module HttpServer {
  import opened Bytes
  import opened Net
  import opened Headers
  import opened HttpRequest
  import opened HttpReplies
  import Storage
  import Accept
  import Decimal
  import WsEngine
  import WsStream
  import WsWire

  const EBUSY := -16
  const ENOMEM := -12
  const EIO := -5
  /** size_t arithmetic of the Content-Length loop. */
  function LengthOf(digits: seq<byte>): nat
    requires forall i :: 0 <= i < |digits| ==> 48 <= digits[i] <= 57
  {
    Decimal.OctetValue(digits) % 0x1_0000_0000
  }

  predicate AllDigits(b: seq<byte>)
  {
    forall i :: 0 <= i < |b| ==> 48 <= b[i] <= 57
  }

  /** The Content-Length loop of handle_client. */
  method ParseLength(b: seq<byte>) returns (len: Option<nat>)
    ensures len.Some? <==> AllDigits(b)
    ensures len.Some? ==> len.value == LengthOf(b)
  {
    var bodyLen := 0;
    assert Decimal.OctetValue(b[..0]) == 0;
    for i := 0 to |b|
      invariant AllDigits(b[..i]) && bodyLen == LengthOf(b[..i])
    {
      if b[i] < 48 || b[i] > 57 {
        return None;
      }
      assert b[..i + 1][..i] == b[..i];
      WrapStep(Decimal.OctetValue(b[..i]), b[i] as nat - 48);
      bodyLen := (bodyLen * 10 + (b[i] as nat - 48)) % 0x1_0000_0000;
    }
    assert b[..|b|] == b;
    len := Some(bodyLen);
  }

  lemma WrapStep(v: nat, d: nat)
    ensures (v % 0x1_0000_0000 * 10 + d) % 0x1_0000_0000 == (v * 10 + d) % 0x1_0000_0000
  {
    var q, r := v / 0x1_0000_0000, v % 0x1_0000_0000;
    assert v * 10 + d == (10 * q) * 0x1_0000_0000 + (r * 10 + d);
  }

  /** The length used is the length declared exactly for declared lengths below 2^32. */
  lemma LengthIsHonoured(digits: seq<byte>)
    requires AllDigits(digits)
    ensures LengthOf(digits) == Decimal.OctetValue(digits) <==> Decimal.OctetValue(digits) < 0x1_0000_0000
  {
  }

  /** A body declared as 4294967296 octets long is taken to be empty. */
  lemma WrappedLength()
    ensures var digits := Ascii("4294967296");
      AllDigits(digits) && Decimal.OctetValue(digits) == 0x1_0000_0000 && LengthOf(digits) == 0
  {
    var d := Ascii("4294967296");
    assert d == [52, 50, 57, 52, 57, 54, 55, 50, 57, 54];
    var v := Decimal.OctetValue;
    assert v(d[..1]) == 4 by { assert d[..1][..0] == []; }
    assert v(d[..2]) == 42 by { assert d[..2][..1] == d[..1]; }
    assert v(d[..3]) == 429 by { assert d[..3][..2] == d[..2]; }
    assert v(d[..4]) == 4294 by { assert d[..4][..3] == d[..3]; }
    assert v(d[..5]) == 42949 by { assert d[..5][..4] == d[..4]; }
    assert v(d[..6]) == 429496 by { assert d[..6][..5] == d[..5]; }
    assert v(d[..7]) == 4294967 by { assert d[..7][..6] == d[..6]; }
    assert v(d[..8]) == 42949672 by { assert d[..8][..7] == d[..7]; }
    assert v(d[..9]) == 429496729 by { assert d[..9][..8] == d[..8]; }
    assert d[..10] == d;
  }

  predicate StartsWith(t: seq<byte>, prefix: seq<byte>)
  {
    prefix <= t
  }

  datatype Route = ToWebSocket | ToUpload | ToIcon | ToFsStatus | ToUserPage | ToRoot | ToNothing

  /** The order of the tests in handle_client. */
  function RouteOf(t: seq<byte>): Route
    requires Section(t)
  {
    if (StartsWith(t, Ascii("GET /can ")) || StartsWith(t, Ascii("GET /ws "))) &&
       Field(FieldLines(t), Accept.KeyName()).Some? then ToWebSocket
    else if StartsWith(t, Ascii("PUT /user/index.html ")) then ToUpload
    else if StartsWith(t, Ascii("GET /favicon.ico ")) || StartsWith(t, Ascii("GET /apple-touch-icon.png ")) ||
            StartsWith(t, Ascii("GET /apple-touch-icon-precomposed.png ")) then ToIcon
    else if StartsWith(t, Ascii("GET /fs/status ")) then ToFsStatus
    else if StartsWith(t, Ascii("GET /user ")) || StartsWith(t, Ascii("GET /user/ ")) then ToUserPage
    else if StartsWith(t, Ascii("GET / ")) || StartsWith(t, Ascii("GET /index.html ")) then ToRoot
    else ToNothing
  }

  function LengthName(): seq<byte> {
    Ascii("Content-Length")
  }

  lemma LengthNameIsField()
    ensures FieldName(LengthName())
  {
  }

  /** The outcomes after which the stored page may have changed. */
  predicate TouchesPage(o: Outcome)
  {
    o == Created || o == WriteFailed
  }

  /** What a request with a stored body asked for: the first Content-Length octets of what
      follows its blank line. */
  ghost predicate Uploads(section: seq<byte>, rest: seq<byte>, body: seq<byte>)
  {
    && Section(section) && RouteOf(section) == ToUpload
    && var v := Field(FieldLines(section), LengthName());
       v.Some? && AllDigits(v.value) && LengthOf(v.value) <= USER_INDEX_MAX &&
       LengthOf(v.value) <= |rest| && body == rest[..LengthOf(v.value)]
  }

  /** The 101 response with the accept value of the request's key went out. */
  ghost predicate UpgradeAnswered(section: seq<byte>, before: seq<byte>, after: seq<byte>)
    requires Section(section)
  {
    GoodKey(section) && after == before + UpgradeDue(section, false)
  }

  /** The answer to an upload: the first test that fails decides, and only a body that passes all
      of them reaches the file. `held` octets after the blank line came with the request. */
  predicate UploadAnswer(section: seq<byte>, held: nat, o: Outcome)
    requires Section(section)
  {
    match Field(FieldLines(section), LengthName())
    case None => o == LengthRequired
    case Some(v) =>
      if !AllDigits(v) then o == BadLength
      else if LengthOf(v) > USER_INDEX_MAX then o == BodyTooLarge
      else if held > LengthOf(v) then o == BodyTooLong
      else o == WriteFailed || o == Created
  }

  /** After a failed upload the page is the old one, or a prefix of the body asked for. */
  ghost predicate OldOrPrefix(section: seq<byte>, rest: seq<byte>, was: Storage.Entry, page: Storage.Entry)
    requires Section(section)
  {
    page == was ||
    var v := Field(FieldLines(section), LengthName());
    page.File? && page.data <= rest && v.Some? && AllDigits(v.value) && |page.data| <= LengthOf(v.value)
  }

  /** The page after a request: only an upload touches it, a failed one leaves the old page or a
      prefix of the body, and a 201 means the whole body on a mounted volume. */
  ghost predicate PageAfter(o: Outcome, section: seq<byte>, rest: seq<byte>, was: Storage.Entry, page: Storage.Entry,
                            mounted: bool)
    requires Section(section)
  {
    && (!TouchesPage(o) ==> page == was)
    && (o == WriteFailed ==> OldOrPrefix(section, rest, was, page))
    && (o == Created ==> mounted && page.File? && Uploads(section, rest, page.data))
  }

  /** The output has grown by the header of the stored page and the page. */
  ghost predicate PageOut(page: Storage.Entry, out0: seq<byte>, out1: seq<byte>)
  {
    page.File? && |page.data| <= USER_INDEX_MAX && out1 == out0 + PageResponse(page.data)
  }

  /** The 101 response a request is due: none while a session is under way or with a bad key. */
  function UpgradeDue(section: seq<byte>, active: bool): seq<byte>
    requires Section(section)
  {
    if active || !GoodKey(section) then []
    else Ascii(SwitchingProtocols(Accept.AcceptFor(Field(FieldLines(section), Accept.KeyName()).value)))
  }

  /** Refusals have their causes: a key the handshake does not allow or a session under way, an
      entry that is not a page, or a failure of the network or the file system. `active`, `dir` and
      `was` are the slot, the directory and the page before the request; `trouble` is a fault of the
      file system during the request, or a volume that is not mounted. */
  predicate Excused(o: Outcome, section: seq<byte>, active: bool, dir: Storage.Entry, was: Storage.Entry,
                    recvFailed: bool, sendFailed: bool, trouble: bool)
  {
    match o
    case NoRequest => recvFailed
    case UpgradeFailed => active || sendFailed || (Section(section) && !GoodKey(section))
    case WriteFailed => trouble || recvFailed || dir.File? || was == Storage.Directory
    case PageMissing => trouble || !was.File?
    case PageTooLarge => was.File? && |was.data| > USER_INDEX_MAX
    case PageFailed => trouble || sendFailed
    case _ => true
  }

  predicate GoodKey(section: seq<byte>)
    requires Section(section)
  {
    var key := Field(FieldLines(section), Accept.KeyName());
    key.Some? && 1 <= |key.value| <= 64
  }

  /** The answers a request leads to. */
  predicate Answers(section: seq<byte>, held: nat, o: Outcome)
    requires Section(section)
  {
    match RouteOf(section)
    case ToWebSocket => o == Upgraded || o == UpgradeFailed
    case ToUpload => UploadAnswer(section, held, o)
    case ToIcon => o == NoContent
    case ToFsStatus => o == FsStatus
    case ToUserPage => o in {PageMissing, PageTooLarge, PageFailed, PageSent}
    case ToRoot => o == RootPage
    case ToNothing => o == NotFound
  }

  /** The answers of each kind of route, for a caller that knows the route. */
  lemma RightAnswer(section: seq<byte>, held: nat, o: Outcome)
    requires Section(section) && RouteOf(section) != ToWebSocket
    requires RouteOf(section) == ToUpload ==> UploadAnswer(section, held, o)
    requires RouteOf(section) == ToUserPage ==> o in {PageMissing, PageTooLarge, PageFailed, PageSent}
    requires RouteOf(section) == ToIcon ==> o == NoContent
    requires RouteOf(section) == ToFsStatus ==> o == FsStatus
    requires RouteOf(section) == ToRoot ==> o == RootPage
    requires RouteOf(section) == ToNothing ==> o == NotFound
    ensures Answers(section, held, o)
  {
    hide Section, RouteOf, UploadAnswer;
  }

  lemma Regroup(a: seq<byte>, b: seq<byte>, c: seq<byte>)
    ensures a + b + c == a + (b + c)
  {
  }

  class Server {
    const storage: Storage.UserStorage
    const bridge: WsEngine.Bridge
    const indexHtml: seq<byte>
    var wsActive: bool
    var wsClient: WsEngine.WsClient?
    var rxStreaming: bool

    constructor (storage: Storage.UserStorage, bridge: WsEngine.Bridge, indexHtml: seq<byte>)
      requires storage.Valid()
      ensures Valid() && this.storage == storage && this.bridge == bridge && !wsActive && !rxStreaming
    {
      this.storage, this.bridge, this.indexHtml := storage, bridge, indexHtml;
      wsActive, wsClient, rxStreaming := false, null, false;
    }

    /** What the answer to a request is made of. */
    ghost function Contents(section: seq<byte>, active: bool): Content
      reads this, storage, storage.fs
    {
      Content(if Section(section) then UpgradeDue(section, active) else [], storage.fs.index, indexHtml,
              storage.StatusJson())
    }

    ghost predicate Valid()
      reads this, storage, storage.fs
    {
      storage.Valid() && (wsActive ==> wsClient != null) && (rxStreaming ==> wsActive)
    }

    /** send_text_response. */
    method SendText(fd: Socket, status: string, body: string) returns (ret: int)
      modifies fd`outgoing, fd`sendFailed
      ensures ret == 0 || ret == ENOMEM || ret == EIO
      ensures ret == ENOMEM <==> |ResponseHead(status, "text/plain; charset=utf-8", |body|)| >= 128
      ensures ret == ENOMEM ==> fd.outgoing == old(fd.outgoing)
      ensures ret == EIO ==> fd.sendFailed
      ensures ret == 0 ==> fd.outgoing == old(fd.outgoing) + TextResponse(status, body)
      ensures ret != ENOMEM ==> Grown(TextResponse(status, body), old(fd.outgoing), fd.outgoing, fd.sendFailed)
    {
      hide ResponseHead, Ascii;
      var header := ResponseHead(status, "text/plain; charset=utf-8", |body|);
      if |header| >= 128 {
        return ENOMEM;
      }
      var r := SendBoth(fd, Ascii(header), Ascii(body));
      ret := if r < 0 then EIO else 0;
    }

    /** A text answer whose result is ignored. */
    method Say(fd: Socket, status: string, body: string, ghost o: Outcome)
      requires IsText(o) && status == StatusOf(o) && body == BodyOf(o)
      modifies fd`outgoing, fd`sendFailed
      ensures Said(o, old(fd.outgoing), fd.outgoing, fd.sendFailed)
    {
      TextHeadFits(status, |body|);
      hide ResponseHead, Ascii, StatusOf, BodyOf;
      var _ := SendText(fd, status, body);
    }

    /** A response whose text is a constant. */
    method SendFixed(fd: Socket, text: string)
      modifies fd`outgoing, fd`sendFailed
      ensures Grown(Ascii(text), old(fd.outgoing), fd.outgoing, fd.sendFailed)
    {
      ghost var n;
      var ret: int;
      ret, n := fd.SendAll(Ascii(text));
    }

    method SendBoth(fd: Socket, header: seq<byte>, body: seq<byte>) returns (ret: int)
      modifies fd`outgoing, fd`sendFailed
      ensures ret <= 0 && (ret == 0 ==> fd.outgoing == old(fd.outgoing) + (header + body))
      ensures Grown(header + body, old(fd.outgoing), fd.outgoing, fd.sendFailed)
      ensures fd.sendFailed == (old(fd.sendFailed) || ret < 0)
    {
      ghost var n, m;
      ret, n := fd.SendAll(header);
      if ret == 0 {
        ret, m := fd.SendAll(body);
        Regroup(old(fd.outgoing), header, body[..m]);
        Regroup(old(fd.outgoing), header, body);
      } else {
        Regroup(old(fd.outgoing) + header[..n], header[n..], body);
        assert header[..n] + header[n..] == header;
      }
    }

    /** handle_websocket. Whatever fails after the slot is taken gives it back. */
    method HandleWebsocket(fd: Socket, section: seq<byte>, pending: seq<byte>) returns (ret: int)
      requires Valid() && Section(section) && |pending| < HTTP_REQUEST_MAX
      modifies this, fd`outgoing, fd`sendFailed
      ensures Valid() && ret <= 0
      ensures ret < 0 ==>
        wsActive == old(wsActive) && wsClient == old(wsClient) && rxStreaming == old(rxStreaming)
      ensures old(wsActive) ==> ret == EBUSY && fd.outgoing == old(fd.outgoing)
      ensures ret == 0 ==> SessionStarted(fd, pending + fd.incoming) && fresh(wsClient) && fresh(wsClient.pending)
      ensures ret == 0 ==> !old(wsActive) && UpgradeAnswered(section, old(fd.outgoing), fd.outgoing)
      ensures ret < 0 ==> old(wsActive) || fd.sendFailed || !GoodKey(section)
      ensures Grown(UpgradeDue(section, old(wsActive)), old(fd.outgoing), fd.outgoing, fd.sendFailed)
      ensures ret == 0 ==> fd.sendFailed == old(fd.sendFailed)
      ensures !old(wsActive) && !GoodKey(section) ==> ret == Accept.EINVAL && fd.outgoing == old(fd.outgoing)
    {
      hide Field, FieldLines, Section, Ascii, Accept.AcceptFor, WsEngine.WsClient.AtHead;
      if wsActive {
        return EBUSY;
      }
      wsActive := true;
      var accept := new char[32];
      ret := Accept.BuildWebsocketAccept(section, accept);
      if ret < 0 {
        wsActive := false;
        return;
      }
      var response := SwitchingProtocols(accept[..28]);
      ret := SendUpgrade(fd, response);
      if ret < 0 {
        wsActive := false;
        return;
      }
      var kept := Min(|pending|, HTTP_REQUEST_MAX);
      assert pending[..kept] == pending;
      wsClient := new WsEngine.WsClient(fd, bridge, pending[..kept]);
      rxStreaming := true;
    }

    /** The 101 response, from a buffer of 192 characters. */
    method SendUpgrade(fd: Socket, response: string) returns (ret: int)
      modifies fd`outgoing, fd`sendFailed
      ensures ret <= 0 && (ret == 0 ==> fd.outgoing == old(fd.outgoing) + Ascii(response))
      ensures ret < 0 ==> fd.sendFailed || |response| >= 192
      ensures |response| < 192 ==> Grown(Ascii(response), old(fd.outgoing), fd.outgoing, fd.sendFailed)
      ensures ret == 0 ==> fd.sendFailed == old(fd.sendFailed)
    {
      if |response| >= 192 {
        return ENOMEM;
      }
      ghost var n;
      ret, n := fd.SendAll(Ascii(response));
    }

    /** A session owns the slot, reads exactly the given stream, and has not begun. */
    ghost predicate SessionStarted(fd: Socket, stream: seq<byte>)
      reads this, bridge, wsClient, if wsClient != null then {wsClient.pending, wsClient.fd, wsClient.bridge} else {}
    {
      wsActive && rxStreaming && wsClient != null && wsClient.fd == fd && wsClient.bridge == bridge &&
      wsClient.AtHead() && wsClient.seen0 == bridge.seen &&
      wsClient.answered0 == bridge.answered && wsClient.received0 == bridge.received &&
      wsClient.stream == stream && wsClient.base == fd.outgoing && wsClient.acts == [] && wsClient.log == []
    }

    /** handle_client. Every path closes the descriptor once, except the one that hands it to the
        WebSocket thread. `section` is the header section read, `rest` the octets after it, the
        first `held` of which came with it. */
    method HandleClient(fd: Socket)
      returns (outcome: Outcome, ghost section: seq<byte>, ghost rest: seq<byte>, ghost held: nat)
      requires Valid()
      modifies this, storage, storage.fs, fd
      ensures storage.Onward()
      ensures WentOut(outcome, Contents(section, old(wsActive)), old(fd.outgoing), fd.outgoing, fd.sendFailed)
      ensures Valid()
      ensures Excused(outcome, section, old(wsActive), old(storage.fs.userDir), old(storage.fs.index),
                      fd.recvFailed, fd.sendFailed, storage.Trouble(old(storage.fs.faults)))
      ensures outcome == HeadersTooLarge ==> NoBlank(old(fd.incoming))
      ensures outcome == NoRequest ==> fd.recvFailed && GaveUp(old(fd.incoming), fd.incoming)
      ensures outcome == NoRequest || outcome == HeadersTooLarge ==> section == []
      ensures fd.closes == old(fd.closes) + if outcome == Upgraded then 0 else 1
      ensures outcome == Upgraded ==>
        !old(wsActive) && SessionStarted(fd, rest) && fresh(wsClient) && fresh(wsClient.pending)
      ensures outcome != Upgraded ==>
        wsActive == old(wsActive) && wsClient == old(wsClient) && rxStreaming == old(rxStreaming)
      ensures !(outcome == NoRequest || outcome == HeadersTooLarge) ==>
        section + rest == old(fd.incoming) && Section(section) &&
        FindBlank(section + rest, 0) == Some(|section| - 4) && held <= |rest| && Answers(section, held, outcome)
      ensures outcome == Upgraded ==> UpgradeAnswered(section, old(fd.outgoing), fd.outgoing)
      ensures outcome == NoRequest || outcome == HeadersTooLarge ==> storage.fs.index == old(storage.fs.index)
      ensures !(outcome == NoRequest || outcome == HeadersTooLarge) ==>
        PageAfter(outcome, section, rest, old(storage.fs.index), storage.fs.index, storage.mounted)
      ensures outcome == PageSent ==> PageOut(storage.fs.index, old(fd.outgoing), fd.outgoing)
    {
      hide NoBlank, GaveUp, WentOut, Contents, Reply, Grown, BareResponse;
      hide Field, FieldLines, Section, FindBlank, RouteOf, Ascii, Uploads, UpgradeAnswered, PageHead,
           SessionStarted, Answers, GoodKey, PageAfter, PageOut;
      section, rest, held := [], [], 0;
      var r := ReadRequest(fd);
      if r.Complete? {
        section, rest, held := r.section, r.pending + fd.incoming, |r.pending|;
        Regroup(r.section, r.pending, fd.incoming);
        outcome := Answer(fd, r.section, r.pending);
      } else {
        outcome := TurnAway(fd, r == TooLarge);
        ghost var c := Contents([], old(wsActive));
        Replies(c);
        OtherWentOut(outcome, c, Reply(outcome, c), old(fd.outgoing), fd.outgoing, fd.sendFailed);
      }
    }

    /** The exits of handle_client before there is a request. */
    method TurnAway(fd: Socket, tooLarge: bool) returns (outcome: Outcome)
      modifies fd`outgoing, fd`sendFailed, fd`closes
      ensures outcome == if tooLarge then HeadersTooLarge else NoRequest
      ensures Grown(if tooLarge then Ascii(BareResponse("431 Request Header Fields Too Large")) else [],
                    old(fd.outgoing), fd.outgoing, fd.sendFailed)
      ensures fd.closes == old(fd.closes) + 1
    {
      outcome := NoRequest;
      if tooLarge {
        SendFixed(fd, BareResponse("431 Request Header Fields Too Large"));
        outcome := HeadersTooLarge;
      }
      fd.Close();
    }

    /** The part of handle_client after the request has been read. */
    method Answer(fd: Socket, t: seq<byte>, pending: seq<byte>) returns (outcome: Outcome)
      requires Valid() && Section(t) && |t + pending| < HTTP_REQUEST_MAX
      modifies this, storage, storage.fs, fd
      ensures storage.Onward()
      ensures WentOut(outcome, Contents(t, old(wsActive)), old(fd.outgoing), fd.outgoing, fd.sendFailed)
      ensures Valid() && Answers(t, |pending|, outcome) && outcome != NoRequest
      ensures outcome != HeadersTooLarge
      ensures Excused(outcome, t, old(wsActive), old(storage.fs.userDir), old(storage.fs.index),
                      fd.recvFailed, fd.sendFailed, storage.Trouble(old(storage.fs.faults)))
      ensures fd.closes == old(fd.closes) + if outcome == Upgraded then 0 else 1
      ensures outcome == Upgraded ==>
        !old(wsActive) && SessionStarted(fd, pending + old(fd.incoming)) &&
        fresh(wsClient) && fresh(wsClient.pending) &&
        UpgradeAnswered(t, old(fd.outgoing), fd.outgoing)
      ensures outcome != Upgraded ==>
        wsActive == old(wsActive) && wsClient == old(wsClient) && rxStreaming == old(rxStreaming)
      ensures PageAfter(outcome, t, pending + old(fd.incoming), old(storage.fs.index), storage.fs.index,
                        storage.mounted)
      ensures outcome == PageSent ==> PageOut(storage.fs.index, old(fd.outgoing), fd.outgoing)
    {
      hide WentOut, Reply, Grown, UpgradeDue;
      hide Field, FieldLines, Section, Ascii, RouteOf, Uploads, UpgradeAnswered, PageHead,
           SessionStarted, UploadAnswer, GoodKey, OldOrPrefix, PageOut;
      if RouteOf(t) == ToWebSocket {
        var ret := HandleWebsocket(fd, t, pending);
        UpgradeWentOut(fd, t, old(wsActive), old(fd.outgoing));
        if ret < 0 {
          fd.Close();
          return UpgradeFailed;
        }
        return Upgraded;
      }
      outcome := Respond(fd, t, pending);
      fd.Close();
    }

    lemma UpgradeWentOut(fd: Socket, t: seq<byte>, active: bool, out0: seq<byte>)
      requires Section(t) && Grown(UpgradeDue(t, active), out0, fd.outgoing, fd.sendFailed)
      ensures WentOut(Upgraded, Contents(t, active), out0, fd.outgoing, fd.sendFailed)
      ensures WentOut(UpgradeFailed, Contents(t, active), out0, fd.outgoing, fd.sendFailed)
    {
      hide Section, UpgradeDue, Reply;
      Replies(Contents(t, active));
    }

    /** Every route but the WebSocket one, up to the close. */
    method Respond(fd: Socket, t: seq<byte>, pending: seq<byte>) returns (outcome: Outcome)
      requires Valid() && Section(t) && RouteOf(t) != ToWebSocket
      modifies storage, storage.fs, fd`incoming, fd`recvFailed, fd`outgoing, fd`sendFailed
      ensures storage.Onward()
      ensures WentOut(outcome, Contents(t, old(wsActive)), old(fd.outgoing), fd.outgoing, fd.sendFailed)
      ensures Valid() && Answers(t, |pending|, outcome) && outcome != Upgraded && outcome != NoRequest
      ensures outcome != HeadersTooLarge
      ensures Excused(outcome, t, old(wsActive), old(storage.fs.userDir), old(storage.fs.index),
                      fd.recvFailed, fd.sendFailed, storage.Trouble(old(storage.fs.faults)))
      ensures PageAfter(outcome, t, pending + old(fd.incoming), old(storage.fs.index), storage.fs.index,
                        storage.mounted)
      ensures outcome == PageSent ==> PageOut(storage.fs.index, old(fd.outgoing), fd.outgoing)
    {
      hide WentOut, Contents, Reply, Said;
      hide Answers, Field, FieldLines, Section, Ascii, RouteOf, Uploads, PageHead, UploadAnswer,
           GoodKey, OldOrPrefix, PageOut;
      var route := RouteOf(t);
      if route == ToUpload {
        outcome := Upload(fd, t, pending);
        TextWentOut(outcome, Contents(t, wsActive), old(fd.outgoing), fd.outgoing, fd.sendFailed);
      } else if route == ToUserPage {
        outcome := SendPage(fd, t);
      } else {
        outcome := SendConstant(fd, route, t);
      }
      RightAnswer(t, |pending|, outcome);
    }

    /** The routes answered with a built-in text or page. */
    method SendConstant(fd: Socket, route: Route, ghost t: seq<byte>) returns (outcome: Outcome)
      requires Valid() && route in {ToIcon, ToFsStatus, ToRoot, ToNothing}
      modifies storage, storage.fs`mounts, storage.fs`faults, fd`outgoing, fd`sendFailed
      ensures storage.Onward()
      ensures WentOut(outcome, Contents(t, wsActive), old(fd.outgoing), fd.outgoing, fd.sendFailed)
      ensures Valid()
      ensures outcome ==
        if route == ToIcon then NoContent
        else if route == ToFsStatus then FsStatus
        else if route == ToRoot then RootPage
        else NotFound
    {
      hide WentOut, Contents, Reply, Grown, Said, Ascii, PageResponse, StatusResponse, BareResponse;
      if route == ToIcon {
        SendFixed(fd, BareResponse("204 No Content"));
        outcome := NoContent;
      } else if route == ToFsStatus {
        var json := storage.FormatStatusJson();
        SendJson(fd, json);
        outcome := FsStatus;
      } else if route == ToRoot {
        SendRoot(fd);
        outcome := RootPage;
      } else {
        Say(fd, "404 Not Found", "not found\n", NotFound);
        TextWentOut(NotFound, Contents(t, wsActive), old(fd.outgoing), fd.outgoing, fd.sendFailed);
        return NotFound;
      }
      ConstantWentOut(fd, t, outcome, old(fd.outgoing));
    }

    method SendJson(fd: Socket, json: string)
      modifies fd`outgoing, fd`sendFailed
      ensures Grown(StatusResponse(json), old(fd.outgoing), fd.outgoing, fd.sendFailed)
    {
      hide Ascii, ResponseHead;
      var _ := SendBoth(fd, Ascii(ResponseHead("200 OK", "application/json", |json|)), Ascii(json));
    }

    method SendRoot(fd: Socket)
      modifies fd`outgoing, fd`sendFailed
      ensures Grown(PageResponse(indexHtml), old(fd.outgoing), fd.outgoing, fd.sendFailed)
    {
      hide PageHead;
      var _ := SendBoth(fd, PageHead(|indexHtml|), indexHtml);
    }

    lemma ConstantWentOut(fd: Socket, t: seq<byte>, o: Outcome, out0: seq<byte>)
      requires o == NoContent || o == FsStatus || o == RootPage
      requires Grown(if o == NoContent then Ascii(BareResponse("204 No Content"))
                     else if o == FsStatus then StatusResponse(storage.StatusJson())
                     else PageResponse(indexHtml), out0, fd.outgoing, fd.sendFailed)
      ensures WentOut(o, Contents(t, wsActive), out0, fd.outgoing, fd.sendFailed)
    {
      hide Section, UpgradeDue, Reply, PageResponse, StatusResponse, BareResponse, Ascii;
      Replies(Contents(t, wsActive));
    }

    /** PUT /user/index.html, up to the response. */
    method Upload(fd: Socket, t: seq<byte>, pending: seq<byte>) returns (outcome: Outcome)
      requires Valid() && Section(t) && RouteOf(t) == ToUpload
      modifies storage, storage.fs, fd`incoming, fd`recvFailed, fd`outgoing, fd`sendFailed
      ensures storage.Onward()
      ensures Said(outcome, old(fd.outgoing), fd.outgoing, fd.sendFailed)
      ensures Valid()
      ensures outcome in {LengthRequired, BadLength, BodyTooLarge, BodyTooLong, WriteFailed, Created}
      ensures UploadAnswer(t, |pending|, outcome)
      ensures outcome == WriteFailed && !storage.Trouble(old(storage.fs.faults)) ==>
        fd.recvFailed || old(storage.fs.userDir).File? || old(storage.fs.index) == Storage.Directory
      ensures PageAfter(outcome, t, pending + old(fd.incoming), old(storage.fs.index), storage.fs.index,
                        storage.mounted)
    {
      hide Field, FieldLines, Section, RouteOf, AllDigits, LengthOf;
      var refusal, len := CheckLength(fd, t, |pending|);
      if refusal.Some? {
        return refusal.value;
      }
      outcome := StoreBody(fd, len, pending);
    }

    /** The tests before the body is looked at; one that fails is answered. */
    method CheckLength(fd: Socket, t: seq<byte>, held: nat) returns (refusal: Option<Outcome>, len: nat)
      requires Section(t)
      modifies fd`outgoing, fd`sendFailed
      ensures refusal.Some? ==>
        refusal.value in {LengthRequired, BadLength, BodyTooLarge, BodyTooLong} && UploadAnswer(t, held, refusal.value)
      ensures refusal.Some? ==> Said(refusal.value, old(fd.outgoing), fd.outgoing, fd.sendFailed)
      ensures refusal.None? ==> fd.outgoing == old(fd.outgoing) && fd.sendFailed == old(fd.sendFailed)
      ensures refusal.None? ==>
        var v := Field(FieldLines(t), LengthName());
        v.Some? && AllDigits(v.value) && len == LengthOf(v.value) <= USER_INDEX_MAX && held <= len
    {
      hide Field, FieldLines, Section, Ascii, AllDigits, LengthOf, Said, TrimRight;
      LengthNameIsField();
      hide LengthName;
      var value := FindHeaderValue(t, LengthName());
      if value.None? {
        Say(fd, "411 Length Required", "content-length required\n", LengthRequired);
        return Some(LengthRequired), 0;
      }
      var n := HeaderValueLen(t, value.value);
      var parsed := ParseLength(t[value.value..value.value + n]);
      if parsed.None? {
        Say(fd, "400 Bad Request", "invalid content-length\n", BadLength);
        return Some(BadLength), 0;
      }
      len := parsed.value;
      if len > USER_INDEX_MAX {
        Say(fd, "413 Payload Too Large", "user page too large\n", BodyTooLarge);
        return Some(BodyTooLarge), len;
      }
      if held > len {
        Say(fd, "400 Bad Request", "body larger than content-length\n", BodyTooLong);
        return Some(BodyTooLong), len;
      }
      refusal := None;
    }

    /** A body of len octets into the file, and the response. */
    method StoreBody(fd: Socket, len: nat, pending: seq<byte>) returns (outcome: Outcome)
      requires Valid()
      modifies storage, storage.fs, fd`incoming, fd`recvFailed, fd`outgoing, fd`sendFailed
      ensures storage.Onward()
      ensures Said(outcome, old(fd.outgoing), fd.outgoing, fd.sendFailed)
      ensures Valid() && (outcome == WriteFailed || outcome == Created)
      ensures outcome == WriteFailed && !storage.Trouble(old(storage.fs.faults)) ==>
        fd.recvFailed || old(storage.fs.userDir).File? || old(storage.fs.index) == Storage.Directory
      ensures var rest := pending + old(fd.incoming);
        && (storage.fs.index == old(storage.fs.index) ||
            (storage.fs.index.File? && storage.fs.index.data <= rest && |storage.fs.index.data| <= len))
        && (outcome == Created ==> storage.mounted && len <= |rest| && storage.fs.index == Storage.File(rest[..len]))
    {
      hide Ascii, ResponseHead;
      var reader := new Storage.BodyReader(fd, pending);
      ghost var rest := pending + fd.incoming;
      assert reader.Unread() == rest by {
        assert pending[0..] == pending;
      }
      var ret;
      ghost var truncated, taken, kept;
      ret, truncated, taken, kept := storage.WriteUserIndexStream(len, reader);
      if ret < 0 {
        Say(fd, "500 Internal Server Error", "user page write failed\n", WriteFailed);
        return WriteFailed;
      }
      Say(fd, "201 Created", "user page written\n", Created);
      outcome := Created;
    }

    /** GET /user, up to the close. */
    method SendPage(fd: Socket, ghost t: seq<byte>) returns (outcome: Outcome)
      requires Valid()
      modifies storage, storage.fs`mounts, storage.fs`faults, fd`outgoing, fd`sendFailed
      ensures storage.Onward()
      ensures WentOut(outcome, Contents(t, wsActive), old(fd.outgoing), fd.outgoing, fd.sendFailed)
      ensures Valid() && outcome in {PageMissing, PageTooLarge, PageFailed, PageSent}
      ensures outcome == PageMissing ==> storage.Trouble(old(storage.fs.faults)) || !storage.fs.index.File?
      ensures outcome == PageFailed ==> storage.Trouble(old(storage.fs.faults)) || fd.sendFailed
      ensures outcome == PageTooLarge ==> storage.fs.index.File? && |storage.fs.index.data| > USER_INDEX_MAX
      ensures outcome == PageSent ==> PageOut(storage.fs.index, old(fd.outgoing), fd.outgoing)
    {
      hide WentOut, Contents, Reply, Said, Grown, Ascii, PageResponse;
      var ret, len := storage.UserIndexSize();
      if ret < 0 {
        Say(fd, "404 Not Found", "user page not found\n", PageMissing);
        TextWentOut(PageMissing, Contents(t, wsActive), old(fd.outgoing), fd.outgoing, fd.sendFailed);
        return PageMissing;
      }
      if len > USER_INDEX_MAX {
        Say(fd, "413 Payload Too Large", "user page too large\n", PageTooLarge);
        TextWentOut(PageTooLarge, Contents(t, wsActive), old(fd.outgoing), fd.outgoing, fd.sendFailed);
        return PageTooLarge;
      }
      ret := SendHeadAndPage(fd, len);
      PageWentOut(fd, t, old(fd.outgoing), ret < 0);
      outcome := if ret < 0 then PageFailed else PageSent;
    }

    lemma PageWentOut(fd: Socket, t: seq<byte>, out0: seq<byte>, failed: bool)
      requires storage.fs.index.File? && Grown(PageResponse(storage.fs.index.data), out0, fd.outgoing, failed)
      ensures WentOut(PageFailed, Contents(t, wsActive), out0, fd.outgoing, fd.sendFailed)
      ensures !failed ==> WentOut(PageSent, Contents(t, wsActive), out0, fd.outgoing, fd.sendFailed)
    {
      hide Section, UpgradeDue, Reply, PageResponse;
      Replies(Contents(t, wsActive));
    }

    /** The header, and the file read and sent in chunks. */
    method SendHeadAndPage(fd: Socket, len: nat) returns (ret: int)
      requires Valid() && storage.fs.index.File? && len == |storage.fs.index.data|
      modifies storage, storage.fs`mounts, storage.fs`faults, fd`outgoing, fd`sendFailed
      ensures Valid() && storage.Onward() && ret <= 0
      ensures ret < 0 ==> storage.Trouble(old(storage.fs.faults)) || fd.sendFailed
      ensures Grown(PageResponse(storage.fs.index.data), old(fd.outgoing), fd.outgoing, ret < 0)
      ensures ret == 0 ==> fd.outgoing == old(fd.outgoing) + PageResponse(storage.fs.index.data)
    {
      hide PageHead;
      ghost var n, page := 0, storage.fs.index.data;
      ret, n := fd.SendAll(PageHead(len));
      if ret < 0 {
        Regroup(old(fd.outgoing) + PageHead(len)[..n], PageHead(len)[n..], page);
        assert PageHead(len)[..n] + PageHead(len)[n..] == PageHead(len);
        return;
      }
      ret, n := storage.StreamUserIndex(fd);
      Regroup(old(fd.outgoing), PageHead(len), page);
    }

    /** websocket_thread: the session, the close, and the release of the slot, in that order. */
    method WebsocketThread(turns: nat) returns (t: WsEngine.Turned)
      requires Valid() && wsActive && wsClient != null && wsClient.AtHead()
      modifies this`wsActive, this`rxStreaming, wsClient, wsClient.fd, wsClient.bridge
      ensures Valid() && !wsActive && !rxStreaming && wsClient == old(wsClient)
      ensures wsClient.fd.closes == old(wsClient.fd.closes) + 1
      ensures wsClient.Valid() && WsWire.LoopShaped(wsClient.log) && wsClient.acts <= WsStream.Acts(wsClient.stream)
      ensures t == WsEngine.GoOn ==>
        |wsClient.acts| + wsClient.fd.idlePolls == |old(wsClient.acts)| + old(wsClient.fd.idlePolls) + turns
      ensures t == WsEngine.Closed ==> wsClient.acts == WsStream.Acts(wsClient.stream) && WsStream.Ended(wsClient.acts)
      ensures (t == WsEngine.RecvFailed ==> wsClient.fd.recvFailed) &&
              (t == WsEngine.SendFailed ==> wsClient.fd.sendFailed) &&
              (t == WsEngine.PollFailed ==> wsClient.fd.pollFailed)
      ensures t == WsEngine.RecvFailed && wsClient.fd.incoming == [] ==> wsClient.acts == WsStream.Acts(wsClient.stream)
    {
      hide WsStream.Acts, WsStream.Ended, WsWire.LoopShaped, WsWire.Wire, WsWire.Answers, WsWire.Due;
      t := wsClient.EchoLoop(turns);
      wsClient.fd.Close();
      rxStreaming := false;
      wsActive := false;
    }
  }

  function SwitchingProtocols(accept: string): string
  {
    "HTTP/1.1 101 Switching Protocols" + "\r\n" + ("Upgrade: websocket" + "\r\n" +
    ("Connection: Upgrade" + "\r\n" + ("Sec-WebSocket-Accept: " + accept + "\r\n" + "\r\n")))
  }
}
