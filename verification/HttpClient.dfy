/** The client's side of HTTP: how requests are written and responses read, and what the server makes
    of the one and gives for the other. */
module HttpClient {
  import opened Bytes
  import opened Headers
  import opened HttpReplies
  import opened HttpServer
  import Accept
  import Base64
  import Decimal
  import opened Sha1Spec

  const CRLF: seq<byte> := [13, 10]

  /** A line that may stand in a header section: not empty, and free of NUL and carriage returns. */
  predicate PlainLine(l: seq<byte>)
  {
    |l| > 0 && forall i :: 0 <= i < |l| ==> l[i] != 0 && l[i] != 13
  }

  /** Field lines, each with its CRLF, and the empty line. */
  function Join(lines: seq<seq<byte>>): (t: seq<byte>)
    ensures |t| >= 2
  {
    if |lines| == 0 then CRLF else lines[0] + CRLF + Join(lines[1..])
  }

  function Request(first: seq<byte>, lines: seq<seq<byte>>): seq<byte>
  {
    first + CRLF + Join(lines)
  }

  lemma {:induction false} JoinEnds(lines: seq<seq<byte>>)
    requires forall l :: l in lines ==> PlainLine(l)
    ensures var t := Join(lines);
      t[|t| - 2] == 13 && t[|t| - 1] == 10 && (forall i :: 0 <= i < |t| ==> t[i] != 0) &&
      (|lines| > 0 ==> |t| >= 4 && t[|t| - 4] == 13 && t[|t| - 3] == 10)
  {
    if |lines| > 0 {
      JoinEnds(lines[1..]);
      assert lines[0] in lines;
    }
  }

  lemma RequestIsSection(first: seq<byte>, lines: seq<seq<byte>>)
    requires PlainLine(first) && forall l :: l in lines ==> PlainLine(l)
    ensures Section(Request(first, lines))
  {
    JoinEnds(lines);
  }

  /** The first CRLF behind a plain line is the one that ends it. */
  lemma {:induction false} EndOfLine(t: seq<byte>, i: nat, l: seq<byte>)
    requires Section(t) && i + |l| + 2 <= |t| && t[i..i + |l|] == l && CrlfAt(t, i + |l|)
    requires forall k :: 0 <= k < |l| ==> l[k] != 13
    ensures NextCrlf(t, i) == i + |l|
  {
    forall k | i <= k < i + |l|
      ensures !CrlfAt(t, k)
    {
      assert t[k] == t[i..i + |l|][k - i] == l[k - i];
    }
  }

  /** Splitting a section into its lines undoes joining them. */
  lemma {:induction false} LinesOfJoin(t: seq<byte>, i: nat, lines: seq<seq<byte>>)
    requires Section(t) && i <= |t| && t[i..] == Join(lines) && LineStart(t, i)
    requires forall l :: l in lines ==> PlainLine(l)
    ensures Lines(t, i) == lines
    decreases |lines|
  {
    hide Section, Join, Lines, NextCrlf, CrlfAt, LineStart;
    if |lines| == 0 {
      assert lines == [];
      JoinNothing();
      NoLine(t, i);
    } else {
      var l := lines[0];
      assert l in lines;
      JoinCons(lines);
      FirstPart(t, i, l, Join(lines[1..]));
      EndOfLine(t, i, l);
      RestStarts(t, i + |l| + 2, lines[1..]);
      OneLine(t, i, i + |l|);
      LinesOfJoin(t, i + |l| + 2, lines[1..]);
      assert lines == [l] + lines[1..];
    }
  }

  lemma NoLine(t: seq<byte>, i: nat)
    requires Section(t) && LineStart(t, i) && i <= |t| && t[i..] == CRLF
    ensures Lines(t, i) == []
  {
    assert t[i..][0] == 13 && t[i..][1] == 10;
    assert CrlfAt(t, i);
  }

  lemma OneLine(t: seq<byte>, i: nat, j: nat)
    requires Section(t) && LineStart(t, i) && i < j && NextCrlf(t, i) == j && LineStart(t, j + 2)
    ensures j <= |t| && Lines(t, i) == [t[i..j]] + Lines(t, j + 2)
  {
  }

  lemma FirstPart(t: seq<byte>, i: nat, l: seq<byte>, rest: seq<byte>)
    requires i <= |t| && t[i..] == l + CRLF + rest
    ensures var j := i + |l|; j + 2 <= |t| && t[i..j] == l && CrlfAt(t, j) && t[j + 2..] == rest
  {
    var j := i + |l|;
    assert t[i..j] == t[i..][..|l|];
    assert t[j] == t[i..][|l|] && t[j + 1] == t[i..][|l| + 1];
    assert t[j + 2..] == t[i..][|l| + 2..];
  }

  lemma JoinNothing()
    ensures Join([]) == CRLF
  {
  }

  lemma JoinCons(lines: seq<seq<byte>>)
    requires |lines| > 0
    ensures Join(lines) == lines[0] + CRLF + Join(lines[1..])
  {
  }

  lemma RestStarts(t: seq<byte>, i: nat, lines: seq<seq<byte>>)
    requires i <= |t| && t[i..] == Join(lines) && forall l :: l in lines ==> PlainLine(l)
    ensures LineStart(t, i)
  {
    JoinEnds(lines);
  }

  /** What the server's definition of field lines gives for a request is what the client wrote. */
  lemma FieldLinesOf(first: seq<byte>, lines: seq<seq<byte>>)
    requires PlainLine(first) && forall l :: l in lines ==> PlainLine(l)
    ensures Section(Request(first, lines)) && FieldLines(Request(first, lines)) == lines
  {
    RequestIsSection(first, lines);
    hide Section, Join;
    var t := Request(first, lines);
    assert t[0..|first|] == first && CrlfAt(t, |first|);
    EndOfLine(t, 0, first);
    assert t[|first| + 2..] == Join(lines);
    RestStarts(t, |first| + 2, lines);
    LinesOfJoin(t, |first| + 2, lines);
  }

  /** A field line with one space before the value, as most clients write it. */
  function FieldLine(name: seq<byte>, value: seq<byte>): seq<byte>
  {
    name + [58, 32] + value
  }

  /** A value that trimming leaves alone. */
  predicate Trimmed(v: seq<byte>)
  {
    |v| > 0 && v[0] != 32 && v[0] != 9 && v[|v| - 1] != 32 && v[|v| - 1] != 9
  }

  lemma FieldLineReads(name: seq<byte>, value: seq<byte>, wanted: seq<byte>)
    requires FieldName(name) && Trimmed(value)
    ensures var l := FieldLine(name, value);
      Colon(l) == |name| && ValueOf(l) == value && (Names(l, wanted) <==> SameText(name, wanted))
  {
    var l := FieldLine(name, value);
    assert l[..|name|] == name && l[|name|] == 58;
    FirstColon(l, |name|);
    var v := l[|name| + 1..];
    assert v[0] == 32 && v[1..] == value;
    assert TrimLeft(v) == TrimLeft(value) == value;
    assert TrimRight(value) == value;
  }

  lemma FirstColon(l: seq<byte>, n: nat)
    requires n < |l| && l[n] == 58 && forall k :: 0 <= k < n ==> l[k] != 58
    ensures Colon(l) == n
  {
  }

  /** The section starts with a text. */
  predicate Begins(t: seq<byte>, text: string)
  {
    Ascii(text) <= t
  }

  /** Octets 0, 5 and 6 tell the paths apart. */
  predicate Path(t: seq<byte>, five: char, six: char)
    requires five < 128 as char && six < 128 as char
  {
    |t| > 6 && t[0] == 71 && t[5] == five as byte && t[6] == six as byte
  }

  lemma BeginsAt(t: seq<byte>, text: string, i: nat)
    requires Begins(t, text) && i < |text| && text[i] < 128 as char
    ensures i < |t| && t[i] == text[i] as byte
  {
    assert Ascii(text)[i] == text[i] as byte;
  }

  lemma BeginsPath(t: seq<byte>, text: string)
    requires |text| > 6 && text[0] == 'G' && text[5] < 128 as char && text[6] < 128 as char
    ensures Begins(t, text) ==> Path(t, text[5], text[6])
  {
    if Begins(t, text) {
      BeginsAt(t, text, 0);
      BeginsAt(t, text, 5);
      BeginsAt(t, text, 6);
    }
  }

  lemma PathsDiffer(t: seq<byte>)
    ensures Begins(t, "GET /can ") ==> Path(t, 'c', 'a')
    ensures Begins(t, "GET /ws ") ==> Path(t, 'w', 's')
    ensures Begins(t, "GET /favicon.ico ") ==> Path(t, 'f', 'a')
    ensures Begins(t, "GET /fs/status ") ==> Path(t, 'f', 's')
    ensures Begins(t, "GET /user ") || Begins(t, "GET /user/ ") ==> Path(t, 'u', 's')
    ensures Begins(t, "GET /index.html ") ==> Path(t, 'i', 'n')
    ensures Begins(t, "GET /apple-touch-icon.png ") || Begins(t, "GET /apple-touch-icon-precomposed.png ") ==>
            Path(t, 'a', 'p')
    ensures Begins(t, "GET / ") ==> |t| > 5 && t[0] == 71 && t[5] == 32
    ensures Begins(t, "PUT /user/index.html ") ==> |t| > 0 && t[0] == 80
  {
    hide Begins, Path;
    BeginsPath(t, "GET /can ");
    BeginsPath(t, "GET /ws ");
    BeginsPath(t, "GET /favicon.ico ");
    BeginsPath(t, "GET /fs/status ");
    BeginsPath(t, "GET /user ");
    BeginsPath(t, "GET /user/ ");
    BeginsPath(t, "GET /index.html ");
    BeginsPath(t, "GET /apple-touch-icon.png ");
    BeginsPath(t, "GET /apple-touch-icon-precomposed.png ");
    if Begins(t, "GET / ") {
      BeginsAt(t, "GET / ", 0);
      BeginsAt(t, "GET / ", 5);
    }
    if Begins(t, "PUT /user/index.html ") {
      BeginsAt(t, "PUT /user/index.html ", 0);
    }
  }

  /** Every path has its own kind of answer, whatever the order of the tests. */
  lemma ClientSees(t: seq<byte>, held: nat, o: Outcome)
    requires Section(t) && HttpServer.Answers(t, held, o)
    ensures o == Upgraded || o == UpgradeFailed <==>
      (Begins(t, "GET /can ") || Begins(t, "GET /ws ")) &&
      Field(FieldLines(t), Ascii("Sec-WebSocket-Key")).Some?
    ensures o in {LengthRequired, BadLength, BodyTooLarge, BodyTooLong, WriteFailed, Created} <==>
      Begins(t, "PUT /user/index.html ")
    ensures o == NoContent <==>
      Begins(t, "GET /favicon.ico ") || Begins(t, "GET /apple-touch-icon.png ") ||
      Begins(t, "GET /apple-touch-icon-precomposed.png ")
    ensures o == FsStatus <==> Begins(t, "GET /fs/status ")
    ensures o in {PageMissing, PageTooLarge, PageFailed, PageSent} <==>
      Begins(t, "GET /user ") || Begins(t, "GET /user/ ")
    ensures o == RootPage <==> Begins(t, "GET / ") || Begins(t, "GET /index.html ")
  {
    hide Field, FieldLines, Section, Begins, RouteOf, HttpServer.Answers, Ascii;
    RouteSeen(t);
    AnswersByRoute(t, held, o);
  }

  lemma AnswersByRoute(t: seq<byte>, held: nat, o: Outcome)
    requires Section(t) && HttpServer.Answers(t, held, o)
    ensures o == Upgraded || o == UpgradeFailed <==> RouteOf(t) == ToWebSocket
    ensures o in {LengthRequired, BadLength, BodyTooLarge, BodyTooLong, WriteFailed, Created} <==>
      RouteOf(t) == ToUpload
    ensures o == NoContent <==> RouteOf(t) == ToIcon
    ensures o == FsStatus <==> RouteOf(t) == ToFsStatus
    ensures o in {PageMissing, PageTooLarge, PageFailed, PageSent} <==> RouteOf(t) == ToUserPage
    ensures o == RootPage <==> RouteOf(t) == ToRoot
  {
    hide Section, RouteOf, UploadAnswer;
    if RouteOf(t) == ToUpload {
      UploadKinds(t, held, o);
    }
  }

  lemma UploadKinds(t: seq<byte>, held: nat, o: Outcome)
    requires Section(t) && UploadAnswer(t, held, o)
    ensures o in {LengthRequired, BadLength, BodyTooLarge, BodyTooLong, WriteFailed, Created}
  {
    hide Field, FieldLines, Section, AllDigits, LengthOf;
  }

  /** The routes by their paths. */
  lemma RouteSeen(t: seq<byte>)
    requires Section(t)
    ensures RouteOf(t) == ToWebSocket <==>
      (Begins(t, "GET /can ") || Begins(t, "GET /ws ")) &&
      Field(FieldLines(t), Ascii("Sec-WebSocket-Key")).Some?
    ensures RouteOf(t) == ToUpload <==> Begins(t, "PUT /user/index.html ")
    ensures RouteOf(t) == ToIcon <==>
      Begins(t, "GET /favicon.ico ") || Begins(t, "GET /apple-touch-icon.png ") ||
      Begins(t, "GET /apple-touch-icon-precomposed.png ")
    ensures RouteOf(t) == ToFsStatus <==> Begins(t, "GET /fs/status ")
    ensures RouteOf(t) == ToUserPage <==> Begins(t, "GET /user ") || Begins(t, "GET /user/ ")
    ensures RouteOf(t) == ToRoot <==> Begins(t, "GET / ") || Begins(t, "GET /index.html ")
  {
    PathsDiffer(t);
    hide Field, FieldLines, Section, Ascii;
  }

  /** What an upload is told, by its Content-Length field. */
  lemma UploaderSees(t: seq<byte>, held: nat, o: Outcome)
    requires Section(t) && HttpServer.Answers(t, held, o) && Begins(t, "PUT /user/index.html ")
    ensures var v := Field(FieldLines(t), Ascii("Content-Length"));
      && (o == LengthRequired <==> v.None?)
      && (o == BadLength <==> v.Some? && !AllDigits(v.value))
      && (v.Some? && AllDigits(v.value) ==>
          var n := Decimal.OctetValue(v.value) % 0x1_0000_0000;
          && (o == BodyTooLarge <==> n > 512 * 1024)
          && (o == BodyTooLong <==> n <= 512 * 1024 && held > n)
          && (o == WriteFailed || o == Created <==> held <= n <= 512 * 1024))
  {
    PathsDiffer(t);
    hide Field, FieldLines, Section, AllDigits, Decimal.OctetValue, Path;
    ClientSees(t, held, o);
  }

  lemma AsciiCat(a: string, b: string)
    ensures Ascii(a + b) == Ascii(a) + Ascii(b)
  {
  }

  /** The lines of the 101 response. */
  function UpgradeLines(accept: string): seq<seq<byte>>
  {
    [FieldLine(Ascii("Upgrade"), Ascii("websocket")), FieldLine(Ascii("Connection"), Ascii("Upgrade")),
     FieldLine(Ascii("Sec-WebSocket-Accept"), Ascii(accept))]
  }

  lemma FieldText(name: string, value: string)
    ensures FieldLine(Ascii(name), Ascii(value)) == Ascii(name + ": " + value)
  {
    assert Ascii(": ") == [58, 32];
  }

  lemma UpgradeIsRequest(accept: string)
    ensures Ascii(SwitchingProtocols(accept)) ==
            Request(Ascii("HTTP/1.1 101 Switching Protocols"), UpgradeLines(accept))
  {
    var first, eol := "HTTP/1.1 101 Switching Protocols", "\r\n";
    var l1, l2, l3 := "Upgrade: websocket", "Connection: Upgrade", "Sec-WebSocket-Accept: " + accept;
    assert Ascii(eol) == CRLF;
    FieldText("Upgrade", "websocket");
    FieldText("Connection", "Upgrade");
    FieldText("Sec-WebSocket-Accept", accept);
    assert "Upgrade" + ": " + "websocket" == l1 && "Connection" + ": " + "Upgrade" == l2;
    assert "Sec-WebSocket-Accept" + ": " == "Sec-WebSocket-Accept: ";
    hide Ascii, FieldLine;
    var t3 := l3 + eol + eol;
    var t2 := l2 + eol + t3;
    var t1 := l1 + eol + t2;
    TwoParts(l3, eol, eol);
    TwoParts(l2, eol, t3);
    TwoParts(l1, eol, t2);
    TwoParts(first, eol, t1);
    ThreeLines(Ascii(l1), Ascii(l2), Ascii(l3));
  }

  lemma TwoParts(a: string, b: string, c: string)
    ensures Ascii(a + b + c) == Ascii(a) + Ascii(b) + Ascii(c)
  {
  }

  lemma ThreeLines(a: seq<byte>, b: seq<byte>, c: seq<byte>)
    ensures Join([a, b, c]) == a + CRLF + (b + CRLF + (c + CRLF + CRLF))
  {
    assert [a, b, c][1..] == [b, c] && [b, c][1..] == [c] && [c][1..] == [];
    assert Join([c]) == c + CRLF + Join([]);
    assert Join([b, c]) == b + CRLF + Join([c]);
  }

  lemma IsName(text: string)
    requires forall i :: 0 <= i < |text| ==> text[i] == '-' || 'A' <= text[i] <= 'z'
    ensures FieldName(Ascii(text)) && forall i :: 0 <= i < |text| ==> Ascii(text)[i] >= 45
  {
  }

  lemma IsPlain(text: string)
    requires |text| > 0 && forall i :: 0 <= i < |text| ==> ' ' <= text[i] <= 'z'
    ensures PlainLine(Ascii(text))
  {
  }

  lemma IsTrimmed(text: string)
    requires |text| > 0 && '+' <= text[0] <= 'z' && '+' <= text[|text| - 1] <= 'z'
    ensures Trimmed(Ascii(text))
  {
  }

  /** A client that reads the 101 response finds the two upgrade fields and the accept value. */
  lemma ClientReadsUpgrade(accept: string)
    requires |accept| > 0 && forall i :: 0 <= i < |accept| ==> Base64.Visible(accept[i])
    ensures var t := Ascii(SwitchingProtocols(accept));
      && Section(t) && Ascii("HTTP/1.1 101 Switching Protocols") <= t
      && Field(FieldLines(t), Ascii("Upgrade")) == Some(Ascii("websocket"))
      && Field(FieldLines(t), Ascii("Connection")) == Some(Ascii("Upgrade"))
      && Field(FieldLines(t), Ascii("Sec-WebSocket-Accept")) == Some(Ascii(accept))
  {
    var t, lines := Ascii(SwitchingProtocols(accept)), UpgradeLines(accept);
    UpgradeIsRequest(accept);
    PlainUpgrade(accept);
    FieldLinesOf(Ascii("HTTP/1.1 101 Switching Protocols"), lines);
    UpgradeFields(accept);
  }

  lemma PlainUpgrade(accept: string)
    requires |accept| > 0 && forall i :: 0 <= i < |accept| ==> Base64.Visible(accept[i])
    ensures PlainLine(Ascii("HTTP/1.1 101 Switching Protocols"))
    ensures forall l :: l in UpgradeLines(accept) ==> PlainLine(l)
  {
    FieldText("Upgrade", "websocket");
    FieldText("Connection", "Upgrade");
    FieldText("Sec-WebSocket-Accept", accept);
    IsPlain("HTTP/1.1 101 Switching Protocols");
    IsPlain("Upgrade" + ": " + "websocket");
    IsPlain("Connection" + ": " + "Upgrade");
    IsPlain("Sec-WebSocket-Accept" + ": " + accept);
    hide Ascii, PlainLine, FieldLine;
  }

  lemma UpgradeFields(accept: string)
    requires |accept| > 0 && forall i :: 0 <= i < |accept| ==> Base64.Visible(accept[i])
    ensures var lines := UpgradeLines(accept);
      && Field(lines, Ascii("Upgrade")) == Some(Ascii("websocket"))
      && Field(lines, Ascii("Connection")) == Some(Ascii("Upgrade"))
      && Field(lines, Ascii("Sec-WebSocket-Accept")) == Some(Ascii(accept))
  {
    IsName("Upgrade");
    IsName("Connection");
    IsName("Sec-WebSocket-Accept");
    IsTrimmed("websocket");
    IsTrimmed("Upgrade");
    IsTrimmed(accept);
    hide Ascii, FieldLine, Trimmed, FieldName, Names, ValueOf;
    ThreeFields(Ascii("Upgrade"), Ascii("websocket"), Ascii("Connection"), Ascii("Upgrade"),
                Ascii("Sec-WebSocket-Accept"), Ascii(accept));
  }

  /** The reader takes the value of the first line, or goes on with the others. */
  lemma FieldCons(name: seq<byte>, value: seq<byte>, rest: seq<seq<byte>>, wanted: seq<byte>)
    requires FieldName(name) && Trimmed(value)
    ensures Field([FieldLine(name, value)] + rest, wanted) ==
            if SameText(name, wanted) then Some(value) else Field(rest, wanted)
  {
    FieldLineReads(name, value, wanted);
    hide FieldLine, Names, ValueOf, Trimmed, FieldName, SameText;
    assert ([FieldLine(name, value)] + rest)[1..] == rest;
  }

  /** Three field lines with names of different lengths. */
  lemma ThreeFields(n1: seq<byte>, v1: seq<byte>, n2: seq<byte>, v2: seq<byte>, n3: seq<byte>, v3: seq<byte>)
    requires FieldName(n1) && FieldName(n2) && FieldName(n3) && Trimmed(v1) && Trimmed(v2) && Trimmed(v3)
    requires |n1| != |n2| && |n1| != |n3| && |n2| != |n3|
    ensures var lines := [FieldLine(n1, v1), FieldLine(n2, v2), FieldLine(n3, v3)];
      Field(lines, n1) == Some(v1) && Field(lines, n2) == Some(v2) && Field(lines, n3) == Some(v3)
  {
    hide FieldLine, Trimmed, FieldName, Field;
    var l1, l2, l3 := FieldLine(n1, v1), FieldLine(n2, v2), FieldLine(n3, v3);
    assert [l1, l2, l3] == [l1] + ([l2] + ([l3] + []));
    FieldCons(n1, v1, [l2] + ([l3] + []), n1);
    FieldCons(n1, v1, [l2] + ([l3] + []), n2);
    FieldCons(n1, v1, [l2] + ([l3] + []), n3);
    FieldCons(n2, v2, [l3] + [], n2);
    FieldCons(n2, v2, [l3] + [], n3);
    FieldCons(n3, v3, [], n3);
  }

  /** A client that asks for the upgrade, with its key in a field named in any mixture of cases. */
  lemma UpgradeAsked(name: seq<byte>, key: seq<byte>)
    requires SameText(name, Ascii("Sec-WebSocket-Key"))
    requires PlainLine(key) && Trimmed(key) && |key| <= 64
    ensures var t := Request(Ascii("GET /ws HTTP/1.1"), [FieldLine(name, key)]);
      var accept := Base64.Encode(Sha1(key + Ascii("258EAFA5-E914-47DA-95CA-C5AB0DC85B11")));
      Section(t) && RouteOf(t) == ToWebSocket && UpgradeDue(t, false) == Ascii(SwitchingProtocols(accept))
  {
    var wanted, line := Ascii("Sec-WebSocket-Key"), FieldLine(name, key);
    IsName("Sec-WebSocket-Key");
    IsPlain("GET /ws HTTP/1.1");
    NameAnyCase(name, wanted);
    FieldCons(name, key, [], wanted);
    assert [line] == [line] + [];
    FieldLinesOf(Ascii("GET /ws HTTP/1.1"), [line]);
    Accept.GuidText();
    hide Ascii, FieldLine, Section, FieldLines, Field, Join, Sha1, Base64.Encode;
    GetWs(Request(Ascii("GET /ws HTTP/1.1"), [line]), Join([line]));
  }

  lemma NameAnyCase(name: seq<byte>, wanted: seq<byte>)
    requires SameText(name, wanted) && FieldName(wanted) && forall i :: 0 <= i < |wanted| ==> wanted[i] >= 45
    ensures FieldName(name) && forall i :: 0 <= i < |name| ==> name[i] != 0
  {
    forall i | 0 <= i < |name|
      ensures name[i] != 0 && name[i] != CR && name[i] != COLON
    {
      assert SameLetter(name[i], wanted[i]);
    }
  }

  lemma GetWs(t: seq<byte>, rest: seq<byte>)
    requires t == Ascii("GET /ws HTTP/1.1") + CRLF + rest
    ensures Ascii("GET /ws ") <= t
  {
    var p, first := Ascii("GET /ws "), Ascii("GET /ws HTTP/1.1");
    assert "GET /ws " + "HTTP/1.1" == "GET /ws HTTP/1.1";
    AsciiCat("GET /ws ", "HTTP/1.1");
    assert first == p + Ascii("HTTP/1.1");
    assert t[..|p|] == p;
  }

  /** An upload as a client writes it. */
  function UploadRequest(name: seq<byte>, digits: seq<byte>): seq<byte>
  {
    Request(Ascii("PUT /user/index.html HTTP/1.1"), [FieldLine(name, digits)])
  }

  lemma UploadRequestReads(name: seq<byte>, digits: seq<byte>)
    requires SameText(name, Ascii("Content-Length")) && |digits| > 0 && AllDigits(digits)
    ensures var t := UploadRequest(name, digits);
      Section(t) && Begins(t, "PUT /user/index.html ") && Field(FieldLines(t), Ascii("Content-Length")) == Some(digits)
  {
    var wanted, line := Ascii("Content-Length"), FieldLine(name, digits);
    var first := Ascii("PUT /user/index.html HTTP/1.1");
    IsName("Content-Length");
    IsPlain("PUT /user/index.html HTTP/1.1");
    hide Ascii, Section, FieldLines, Field, Join, Begins;
    NameAnyCase(name, wanted);
    DigitsArePlain(name, digits);
    FieldCons(name, digits, [], wanted);
    assert [line] == [line] + [];
    FieldLinesOf(first, [line]);
    PutIndex(Request(first, [line]), Join([line]));
  }

  /** A client that uploads so many octets, the field named in any mixture of cases, is not refused. */
  lemma UploadAsked(name: seq<byte>, digits: seq<byte>, held: nat, o: Outcome)
    requires SameText(name, Ascii("Content-Length")) && |digits| > 0 && AllDigits(digits)
    requires Decimal.OctetValue(digits) <= 512 * 1024 && held <= Decimal.OctetValue(digits)
    requires var t := UploadRequest(name, digits); Section(t) && HttpServer.Answers(t, held, o)
    ensures o == WriteFailed || o == Created
  {
    hide Section, FieldLines, Field, Begins, UploadRequest, SameText, AllDigits, Decimal.OctetValue, HttpServer.Answers;
    UploadRequestReads(name, digits);
    UploaderSees(UploadRequest(name, digits), held, o);
  }

  lemma DigitsArePlain(name: seq<byte>, digits: seq<byte>)
    requires FieldName(name) && (forall i :: 0 <= i < |name| ==> name[i] != 0) && |digits| > 0 && AllDigits(digits)
    ensures PlainLine(FieldLine(name, digits)) && Trimmed(digits)
  {
  }

  lemma PutIndex(t: seq<byte>, rest: seq<byte>)
    requires t == Ascii("PUT /user/index.html HTTP/1.1") + CRLF + rest
    ensures Begins(t, "PUT /user/index.html ")
  {
    var p, first := Ascii("PUT /user/index.html "), Ascii("PUT /user/index.html HTTP/1.1");
    assert "PUT /user/index.html " + "HTTP/1.1" == "PUT /user/index.html HTTP/1.1";
    AsciiCat("PUT /user/index.html ", "HTTP/1.1");
    assert first == p + Ascii("HTTP/1.1");
    assert t[..|p|] == p;
  }

  /** The field lines of a response with a length. */
  function ReplyLines(contentType: string, n: nat): seq<seq<byte>>
  {
    [FieldLine(Ascii("Content-Type"), Ascii(contentType)), FieldLine(Ascii("Content-Length"), Ascii(Decimal.Dec(n))),
     FieldLine(Ascii("Connection"), Ascii("close"))]
  }

  lemma HeadIsRequest(status: string, contentType: string, n: nat)
    ensures Ascii(ResponseHead(status, contentType, n)) ==
            Request(Ascii("HTTP/1.0 " + status), ReplyLines(contentType, n))
  {
    var eol, length := "\r\n", Decimal.Dec(n);
    var first, l1, l2, l3 :=
      "HTTP/1.0 " + status, "Content-Type: " + contentType, "Content-Length: " + length, "Connection: close";
    assert Ascii(eol) == CRLF;
    FieldText("Content-Type", contentType);
    FieldText("Content-Length", length);
    FieldText("Connection", "close");
    assert "Content-Type" + ": " == "Content-Type: " && "Content-Length" + ": " == "Content-Length: ";
    assert "Connection" + ": " + "close" == l3;
    HeadParts(status, contentType, n);
    hide Ascii, FieldLine, ResponseHead, Decimal.Dec;
    var t3 := l3 + eol + eol;
    var t2 := l2 + eol + t3;
    var t1 := l1 + eol + t2;
    TwoParts(l3, eol, eol);
    TwoParts(l2, eol, t3);
    TwoParts(l1, eol, t2);
    TwoParts(first, eol, t1);
    ThreeLines(Ascii(l1), Ascii(l2), Ascii(l3));
  }

  lemma HeadParts(status: string, contentType: string, n: nat)
    ensures var eol := "\r\n";
      ResponseHead(status, contentType, n) ==
      "HTTP/1.0 " + status + eol + ("Content-Type: " + contentType + eol + ("Content-Length: " + Decimal.Dec(n) + eol +
      ("Connection: close" + eol + eol)))
  {
    hide Decimal.Dec;
    Grouped("HTTP/1.0 " + status, "Content-Type: " + contentType, "Content-Length: ", Decimal.Dec(n),
            "Connection: close", "\r\n");
  }

  lemma Grouped(a: string, b: string, c: string, d: string, e: string, eol: string)
    ensures a + (eol + (b + (eol + c))) + (d + (eol + (e + eol + eol))) ==
            a + eol + (b + eol + (c + d + eol + (e + eol + eol)))
  {
  }

  /** A client that reads the header of a response finds the status, the type and the length. */
  lemma ClientReadsHead(status: string, contentType: string, n: nat)
    requires |status| > 0 && forall i :: 0 <= i < |status| ==> ' ' <= status[i] <= 'z'
    requires |contentType| > 0 && forall i :: 0 <= i < |contentType| ==> ' ' <= contentType[i] <= 'z'
    requires '+' <= contentType[0] && '+' <= contentType[|contentType| - 1]
    ensures var t := Ascii(ResponseHead(status, contentType, n));
      && Section(t) && Ascii("HTTP/1.0 " + status) <= t
      && Field(FieldLines(t), Ascii("Content-Type")) == Some(Ascii(contentType))
      && Field(FieldLines(t), Ascii("Content-Length")) == Some(Ascii(Decimal.Dec(n)))
      && Field(FieldLines(t), Ascii("Connection")) == Some(Ascii("close"))
  {
    var first := Ascii("HTTP/1.0 " + status);
    hide Ascii, Section, FieldLines, Field, ResponseHead, Join, PlainLine, Trimmed;
    HeadIsRequest(status, contentType, n);
    PlainReply(status, contentType, n);
    FieldLinesOf(first, ReplyLines(contentType, n));
    ReplyFields(contentType, n);
  }

  lemma ReplyFields(contentType: string, n: nat)
    requires |contentType| > 0 && forall i :: 0 <= i < |contentType| ==> ' ' <= contentType[i] <= 'z'
    requires '+' <= contentType[0] && '+' <= contentType[|contentType| - 1]
    ensures var lines := ReplyLines(contentType, n);
      && Field(lines, Ascii("Content-Type")) == Some(Ascii(contentType))
      && Field(lines, Ascii("Content-Length")) == Some(Ascii(Decimal.Dec(n)))
      && Field(lines, Ascii("Connection")) == Some(Ascii("close"))
  {
    var length := Decimal.Dec(n);
    IsName("Content-Type");
    IsName("Content-Length");
    IsName("Connection");
    IsTrimmed(contentType);
    IsTrimmed(length);
    IsTrimmed("close");
    hide Ascii, FieldLine, Trimmed, FieldName, Names, ValueOf;
    ThreeFields(Ascii("Content-Type"), Ascii(contentType), Ascii("Content-Length"), Ascii(length),
                Ascii("Connection"), Ascii("close"));
  }

  lemma PlainReply(status: string, contentType: string, n: nat)
    requires |status| > 0 && forall i :: 0 <= i < |status| ==> ' ' <= status[i] <= 'z'
    requires |contentType| > 0 && forall i :: 0 <= i < |contentType| ==> ' ' <= contentType[i] <= 'z'
    ensures PlainLine(Ascii("HTTP/1.0 " + status)) && forall l :: l in ReplyLines(contentType, n) ==> PlainLine(l)
  {
    FieldText("Content-Type", contentType);
    FieldText("Content-Length", Decimal.Dec(n));
    FieldText("Connection", "close");
    hide Decimal.Dec;
    IsPlain("HTTP/1.0 " + status);
    IsPlain("Content-Type" + ": " + contentType);
    IsPlain("Content-Length" + ": " + Decimal.Dec(n));
    IsPlain("Connection" + ": " + "close");
    hide Ascii, PlainLine, FieldLine;
  }

  /** A response without a body has one field. */
  lemma ClientReadsBare(status: string)
    requires |status| > 0 && forall i :: 0 <= i < |status| ==> ' ' <= status[i] <= 'z'
    ensures var t := Ascii(BareResponse(status));
      && Section(t) && Ascii("HTTP/1.0 " + status) <= t
      && FieldLines(t) == [FieldLine(Ascii("Connection"), Ascii("close"))]
  {
    var first, eol, l := "HTTP/1.0 " + status, "\r\n", "Connection: close";
    BareParts(status);
    FieldText("Connection", "close");
    assert "Connection" + ": " + "close" == l;
    IsPlain(first);
    IsPlain(l);
    assert Ascii(eol) == CRLF;
    hide Ascii, FieldLine, BareResponse, PlainLine, Section, FieldLines, Join;
    TwoParts(l, eol, eol);
    TwoParts(first, eol, l + eol + eol);
    OneLineJoined(Ascii(l));
    FieldLinesOf(Ascii(first), [Ascii(l)]);
  }

  lemma BareParts(status: string)
    ensures var eol := "\r\n";
      BareResponse(status) == "HTTP/1.0 " + status + eol + ("Connection: close" + eol + eol)
  {
    ThreeStrings("HTTP/1.0 " + status, "\r\n", "Connection: close" + "\r\n" + "\r\n");
  }

  lemma ThreeStrings(a: string, b: string, c: string)
    ensures a + (b + c) == a + b + c
  {
  }

  lemma OneLineJoined(a: seq<byte>)
    ensures Join([a]) == a + CRLF + CRLF
  {
    assert [a][1..] == [];
  }

  /** What a client finds in front of a page: the status 200, the type, and the length of what follows. */
  lemma ClientReadsPage(page: seq<byte>)
    ensures var t := PageHead(|page|);
      && PageResponse(page) == t + page && Section(t) && Ascii("HTTP/1.0 " + "200 OK") <= t
      && Field(FieldLines(t), Ascii("Content-Type")) == Some(Ascii("text/html; charset=utf-8"))
      && Field(FieldLines(t), Ascii("Content-Length")) == Some(Ascii(Decimal.Dec(|page|)))
  {
    ClientReadsHead("200 OK", "text/html; charset=utf-8", |page|);
    hide Ascii, Section, FieldLines, Field, ResponseHead, Decimal.Dec;
  }
}
