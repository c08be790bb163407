/** What the HTTP thread answers, octet for octet, for every way a request can end. */
module HttpReplies {
  import opened Bytes
  import Storage
  import Decimal

  const USER_INDEX_MAX: nat := 524288

  /** What ends every header. */
  function HeadEnd(): string
  {
    "\r\n" + ("Connection: close" + "\r\n" + "\r\n")
  }

  /** The header of every response with a length, up to the number. */
  function HeadBefore(status: string, contentType: string): string
  {
    "HTTP/1.0 " + status + ("\r\n" + ("Content-Type: " + contentType + ("\r\n" + "Content-Length: ")))
  }

  function ResponseHead(status: string, contentType: string, n: nat): string
  {
    HeadBefore(status, contentType) + (Decimal.Dec(n) + HeadEnd())
  }

  function TextResponse(status: string, body: string): seq<byte>
  {
    Ascii(ResponseHead(status, "text/plain; charset=utf-8", |body|)) + Ascii(body)
  }

  function StatusResponse(json: string): seq<byte>
  {
    Ascii(ResponseHead("200 OK", "application/json", |json|)) + Ascii(json)
  }

  function PageHead(n: nat): seq<byte>
  {
    Ascii(ResponseHead("200 OK", "text/html; charset=utf-8", n))
  }

  function PageResponse(page: seq<byte>): seq<byte>
  {
    PageHead(|page|) + page
  }

  /** The page header announces exactly n: a reader that skips to the number finds it. */
  lemma HeadAnnounces(status: string, contentType: string, n: nat)
    ensures var h, k := ResponseHead(status, contentType, n), |HeadBefore(status, contentType)|;
      k <= |h| && Decimal.ReadNat(h[k..]) == Some((n, HeadEnd()))
  {
    var before := HeadBefore(status, contentType);
    hide HeadBefore;
    assert HeadEnd()[0] == '\r';
    assert ResponseHead(status, contentType, n)[|before|..] == Decimal.Dec(n) + HeadEnd();
    Decimal.ReadDec(n, HeadEnd());
  }

  /** The header of a page fits its 128-character buffer for every length a size_t can hold, and so
      does that of the status. */
  lemma PageHeadFits(n: nat)
    requires n < 0x1_0000_0000
    ensures |ResponseHead("200 OK", "text/html; charset=utf-8", n)| < 128
    ensures |ResponseHead("200 OK", "application/json", n)| < 128
  {
    assert Decimal.Pow10(5) == 100000;
    assert Decimal.Pow10(10) == 100000 * Decimal.Pow10(5);
    Decimal.DecLength(n, 10);
    hide Decimal.Dec;
  }

  /** The header of a text response fits its 128-character buffer for every status in use. */
  lemma TextHeadFits(status: string, n: nat)
    requires |status| <= 25 && n < 100
    ensures |ResponseHead(status, "text/plain; charset=utf-8", n)| < 128
  {
    Decimal.DecLength(n, 2);
  }

  /** How the firmware answered a client. */
  datatype Outcome =
    | NoRequest | HeadersTooLarge | Upgraded | UpgradeFailed
    | LengthRequired | BadLength | BodyTooLarge | BodyTooLong | WriteFailed | Created
    | NoContent | FsStatus | PageMissing | PageTooLarge | PageFailed | PageSent
    | NotFound | RootPage

  /** The outcomes answered by send_text_response or a constant of the same form. */
  predicate IsText(o: Outcome)
  {
    o in {LengthRequired, BadLength, BodyTooLarge, BodyTooLong, WriteFailed, Created,
          PageMissing, PageTooLarge, NotFound}
  }

  function StatusOf(o: Outcome): (s: string)
    requires IsText(o)
    ensures 3 <= |s| <= 25
  {
    match o
    case LengthRequired => "411 Length Required"
    case BadLength => "400 Bad Request"
    case BodyTooLarge => "413 Payload Too Large"
    case BodyTooLong => "400 Bad Request"
    case WriteFailed => "500 Internal Server Error"
    case Created => "201 Created"
    case PageTooLarge => "413 Payload Too Large"
    case _ => "404 Not Found"
  }

  function BodyOf(o: Outcome): (b: string)
    requires IsText(o)
    ensures |b| < 100
  {
    match o
    case LengthRequired => "content-length required\n"
    case BadLength => "invalid content-length\n"
    case BodyTooLarge => "user page too large\n"
    case BodyTooLong => "body larger than content-length\n"
    case WriteFailed => "user page write failed\n"
    case Created => "user page written\n"
    case PageMissing => "user page not found\n"
    case PageTooLarge => "user page too large\n"
    case NotFound => "not found\n"
  }

  /** A response without a body. */
  function BareResponse(status: string): string
  {
    "HTTP/1.0 " + status + HeadEnd()
  }

  /** What the answers are made of: the 101 response if one is due, the stored page, the root page
      and the file system status. */
  datatype Content = Content(upgrade: seq<byte>, page: Storage.Entry, root: seq<byte>, status: string)

  /** The whole answer for an outcome. */
  function Reply(o: Outcome, c: Content): seq<byte>
  {
    if IsText(o) then TextResponse(StatusOf(o), BodyOf(o))
    else match o
      case HeadersTooLarge => Ascii(BareResponse("431 Request Header Fields Too Large"))
      case NoContent => Ascii(BareResponse("204 No Content"))
      case FsStatus => StatusResponse(c.status)
      case RootPage => PageResponse(c.root)
      case Upgraded => c.upgrade
      case UpgradeFailed => c.upgrade
      case PageSent => if c.page.File? then PageResponse(c.page.data) else []
      case PageFailed => if c.page.File? then PageResponse(c.page.data) else []
      case _ => []
  }

  /** The output has grown by a text, or, if a send has failed, by a prefix of it. */
  predicate Grown(text: seq<byte>, out0: seq<byte>, out1: seq<byte>, failed: bool)
  {
    out0 <= out1 && out1 <= out0 + text && (failed || out1 == out0 + text)
  }

  /** A text answer went out. */
  predicate Said(o: Outcome, out0: seq<byte>, out1: seq<byte>, failed: bool)
  {
    IsText(o) && Grown(TextResponse(StatusOf(o), BodyOf(o)), out0, out1, failed)
  }

  /** The answer for an outcome went out, whole unless a send failed or the page could not be read. */
  predicate WentOut(o: Outcome, c: Content, out0: seq<byte>, out1: seq<byte>, failed: bool)
  {
    Grown(Reply(o, c), out0, out1, failed || o == PageFailed)
  }

  /** The answers that are no text answers, one by one. */
  lemma Replies(c: Content)
    ensures Reply(NoRequest, c) == [] && Reply(NoContent, c) == Ascii(BareResponse("204 No Content"))
    ensures Reply(HeadersTooLarge, c) == Ascii(BareResponse("431 Request Header Fields Too Large"))
    ensures Reply(FsStatus, c) == StatusResponse(c.status) && Reply(RootPage, c) == PageResponse(c.root)
    ensures Reply(Upgraded, c) == Reply(UpgradeFailed, c) == c.upgrade
    ensures c.page.File? ==> Reply(PageSent, c) == Reply(PageFailed, c) == PageResponse(c.page.data)
  {
    hide TextResponse, StatusResponse, PageResponse, BareResponse, Ascii;
  }

  lemma TextWentOut(o: Outcome, c: Content, out0: seq<byte>, out1: seq<byte>, failed: bool)
    requires Said(o, out0, out1, failed)
    ensures WentOut(o, c, out0, out1, failed)
  {
    hide TextResponse, StatusOf, BodyOf;
  }

  lemma OtherWentOut(o: Outcome, c: Content, text: seq<byte>, out0: seq<byte>, out1: seq<byte>, failed: bool)
    requires text == Reply(o, c) && Grown(text, out0, out1, failed || o == PageFailed)
    ensures WentOut(o, c, out0, out1, failed)
  {
    hide Reply;
  }

  /** The status code is where a client looks for it. */
  lemma HeadHasStatus(status: string, contentType: string, n: nat, k: nat)
    requires k < |status|
    ensures var h := ResponseHead(status, contentType, n); |h| > 9 + k && h[9 + k] == status[k]
  {
  }

  lemma BareHasStatus(status: string, k: nat)
    requires k < |status|
    ensures var h := BareResponse(status); |h| > 9 + k && h[9 + k] == status[k]
  {
  }

  /** No other answer, whole or cut short, is the answer that says 201. */
  lemma OnlyCreatedSays201(o: Outcome, c: Content, out0: seq<byte>, out1: seq<byte>, failed: bool)
    requires WentOut(o, c, out0, out1, failed) && (c.upgrade == [] || Ascii("HTTP/1.1") <= c.upgrade)
    requires out1 == out0 + Reply(Created, c)
    ensures o == Created
  {
    var created := Reply(Created, c);
    assert created <= Reply(o, c) by {
      Cancel(out0, created, Reply(o, c));
    }
    if o != Created {
      NotCreated(o, c);
    }
  }

  lemma Cancel(a: seq<byte>, b: seq<byte>, c: seq<byte>)
    requires a + b <= a + c
    ensures b <= c
  {
    assert (a + b)[|a|..] == b && (a + c)[|a|..] == c;
  }

  lemma CreatedCode(c: Content)
    ensures var t := Reply(Created, c); |t| > 11 && t[7] == '0' as byte && t[9] == '2' as byte && t[11] == '1' as byte
  {
    hide ResponseHead, Ascii;
    var n, body := |BodyOf(Created)|, Ascii(BodyOf(Created));
    VersionAt("201 Created", "text/plain; charset=utf-8", n, body);
    CodeAt("201 Created", "text/plain; charset=utf-8", n, body, 0);
    CodeAt("201 Created", "text/plain; charset=utf-8", n, body, 2);
  }

  lemma VersionAt(status: string, contentType: string, n: nat, rest: seq<byte>)
    ensures var t := Ascii(ResponseHead(status, contentType, n)) + rest; |t| > 7 && t[7] == '0' as byte
  {
    var h := ResponseHead(status, contentType, n);
    assert |h| > 9 && h[7] == '0';
    hide ResponseHead;
  }

  /** Every other answer differs from it in the version or the status code. */
  lemma NotCreated(o: Outcome, c: Content)
    requires o != Created && (c.upgrade == [] || Ascii("HTTP/1.1") <= c.upgrade)
    ensures !(Reply(Created, c) <= Reply(o, c))
  {
    CreatedCode(c);
    var t, r := Reply(Created, c), Reply(o, c);
    if IsText(o) {
      TextCode(o, c);
    } else if o == Upgraded || o == UpgradeFailed {
      assert |r| > 7 ==> r[7] == Ascii("HTTP/1.1")[7] == '1' as byte;
    } else {
      OtherCode(o, c);
    }
  }

  /** Octet k of the status code in a response that is cut nowhere. */
  lemma CodeAt(status: string, contentType: string, n: nat, rest: seq<byte>, k: nat)
    requires k < 3 <= |status|
    ensures var t := Ascii(ResponseHead(status, contentType, n)) + rest;
      |t| > 11 && t[9 + k] == (status[k] as nat % 256) as byte
  {
    HeadHasStatus(status, contentType, n, k);
    HeadHasStatus(status, contentType, n, 2);
    hide ResponseHead;
  }

  lemma BareCodeAt(status: string, k: nat)
    requires k < 3 <= |status|
    ensures var t := Ascii(BareResponse(status)); |t| > 11 && t[9 + k] == (status[k] as nat % 256) as byte
  {
    BareHasStatus(status, k);
    BareHasStatus(status, 2);
    hide BareResponse;
  }

  lemma TextCode(o: Outcome, c: Content)
    requires IsText(o) && o != Created
    ensures var t := Reply(o, c); |t| > 11 && t[9] != '2' as byte
  {
    hide ResponseHead, Ascii;
    CodeAt(StatusOf(o), "text/plain; charset=utf-8", |BodyOf(o)|, Ascii(BodyOf(o)), 0);
  }

  lemma OtherCode(o: Outcome, c: Content)
    requires !IsText(o) && o != Upgraded && o != UpgradeFailed
    ensures var t := Reply(o, c); |t| <= 11 || t[9] != '2' as byte || t[11] != '1' as byte
  {
    hide ResponseHead, BareResponse, Ascii;
    if o == HeadersTooLarge {
      BareCodeAt("431 Request Header Fields Too Large", 0);
    } else if o == NoContent {
      BareCodeAt("204 No Content", 2);
    } else if o == FsStatus {
      CodeAt("200 OK", "application/json", |c.status|, Ascii(c.status), 2);
    } else if o == RootPage {
      PageCode(c.root);
    } else if o != NoRequest && c.page.File? {
      PageCode(c.page.data);
    }
  }

  lemma PageCode(page: seq<byte>)
    ensures var t := PageResponse(page); |t| > 11 && t[11] == '0' as byte
  {
    hide ResponseHead, Ascii;
    CodeAt("200 OK", "text/html; charset=utf-8", |page|, page, 2);
  }
}
