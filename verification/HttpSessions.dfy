/** Runs of the HTTP thread over many clients, and one WebSocket session from its upgrade on. */
module HttpSessions {
  import opened Bytes
  import opened Net
  import opened Headers
  import opened HttpRequest
  import opened HttpReplies
  import opened HttpServer
  import Accept
  import Storage
  import WsEngine
  import WsFrames
  import WsStream
  import WsWire

  /** What became of one client: the answer, the request (its header section, the octets after it,
      and how many of these came with it), what answers were made of and whether the volume is
      mounted afterwards, how often the file system failed, and whether the socket did. */
  datatype Visit = Visit(
    outcome: Outcome, section: seq<byte>, rest: seq<byte>, held: nat, content: Content, mounted: bool,
    faults: nat, recvFailed: bool, sendFailed: bool)

  /** Nothing failed during the visit. */
  predicate Calm(v: Visit)
  {
    v.faults == 0 && !v.recvFailed && !v.sendFailed
  }

  /** A complete request was read. */
  predicate Heard(v: Visit)
  {
    v.outcome != NoRequest && v.outcome != HeadersTooLarge
  }

  predicate AsksForPage(v: Visit)
  {
    Heard(v) && Section(v.section) && RouteOf(v.section) == ToUserPage
  }

  /** A stored page of allowed size. */
  predicate Servable(page: Storage.Entry)
  {
    page.File? && |page.data| <= USER_INDEX_MAX
  }

  /** The page changes only in uploads, and the volume stays mounted. */
  predicate PageHistory(visits: seq<Visit>)
  {
    forall k :: 1 <= k < |visits| ==>
      (!TouchesPage(visits[k].outcome) ==> visits[k].content.page == visits[k - 1].content.page) &&
      (visits[k - 1].mounted ==> visits[k].mounted)
  }

  lemma {:induction false} StaysMounted(visits: seq<Visit>, i: nat, k: nat)
    requires PageHistory(visits) && i <= k < |visits| && visits[i].mounted
    ensures visits[k].mounted
  {
    if i < k {
      StaysMounted(visits, i, k - 1);
    }
  }

  lemma {:induction false} PageKept(visits: seq<Visit>, i: nat, k: nat)
    requires PageHistory(visits) && i <= k < |visits|
    requires forall j :: i < j <= k ==> !TouchesPage(visits[j].outcome)
    ensures visits[k].content.page == visits[i].content.page
  {
    if i < k {
      PageKept(visits, i, k - 1);
    }
  }

  /** The visit is about what came through the socket: a complete request is the stream up to its
      first blank line and gets one of its answers; without one the stream has no blank line within
      1535 octets, or the receiving failed before there was one. */
  ghost predicate RightlyHeard(v: Visit, before: Snapshot, after: Snapshot)
  {
    && v.recvFailed == after.recvFailed && v.sendFailed == after.sendFailed
    && (Heard(v) ==>
        v.section + v.rest == before.incoming && Section(v.section) && v.held <= |v.rest| &&
        FindBlank(before.incoming, 0) == Some(|v.section| - 4) && HttpServer.Answers(v.section, v.held, v.outcome))
    && (v.outcome == NoRequest ==> v.recvFailed && GaveUp(before.incoming, after.incoming))
    && (v.outcome == HeadersTooLarge ==> NoBlank(before.incoming))
  }

  /** The answer went out, whole unless something failed, and the descriptor was closed once unless
      it was handed to the WebSocket thread. */
  ghost predicate RightlyAnswered(v: Visit, before: Snapshot, after: Snapshot)
  {
    && WentOut(v.outcome, v.content, before.outgoing, after.outgoing, v.sendFailed)
    && (v.content.upgrade == [] || Ascii("HTTP/1.1") <= v.content.upgrade)
    && after.closes == before.closes + (if v.outcome == Upgraded then 0 else 1)
  }

  /** A 201 means that the page is the uploaded body; a page is sent only whole, and is sent whenever
      it is asked for and stored, the volume is mounted, and nothing failed. */
  ghost predicate RightlyServed(v: Visit, before: Snapshot, after: Snapshot)
  {
    && (v.outcome == Created ==>
        v.mounted && v.content.page.File? && Uploads(v.section, v.rest, v.content.page.data))
    && (v.outcome == PageSent ==> PageOut(v.content.page, before.outgoing, after.outgoing))
    && (AsksForPage(v) ==> !TouchesPage(v.outcome))
    && (AsksForPage(v) && v.mounted && Calm(v) ==> (v.outcome == PageSent <==> Servable(v.content.page)))
  }

  ghost predicate RightVisit(v: Visit, before: Snapshot, after: Snapshot)
  {
    RightlyHeard(v, before, after) && RightlyAnswered(v, before, after) && RightlyServed(v, before, after)
  }

  function TotalFaults(visits: seq<Visit>): nat
  {
    if |visits| == 0 then 0 else TotalFaults(visits[..|visits| - 1]) + visits[|visits| - 1].faults
  }

  /** Visit i stored a page, visit k asks for it, and no upload came between. */
  predicate GetAfterPut(visits: seq<Visit>, i: nat, k: nat)
    requires i < k < |visits|
  {
    visits[i].outcome == Created && AsksForPage(visits[k]) &&
    forall j :: i < j < k ==> !TouchesPage(visits[j].outcome)
  }

  /** The page of the first visit is the body its client sent, and the second client gets it, for
      certain if nothing failed. */
  ghost predicate Delivers(put: Visit, get: Visit, putBefore: Snapshot, getBefore: Snapshot, getAfter: Snapshot)
  {
    && put.section + put.rest == putBefore.incoming
    && put.content.page.File? && Uploads(put.section, put.rest, put.content.page.data)
    && (Calm(get) ==> get.outcome == PageSent)
    && (get.outcome == PageSent ==>
        getAfter.outgoing == getBefore.outgoing + PageResponse(put.content.page.data))
  }

  /** A page answered 201 is what a later GET delivers, octet for octet and announced with its
      length, whenever it delivers a page; and it does so unless something fails in that very GET,
      whatever failed before. */
  lemma {:induction false} PutThenGet(visits: seq<Visit>, i: nat, k: nat,
                                      i0: Snapshot, i1: Snapshot, k0: Snapshot, k1: Snapshot)
    requires i < k < |visits| && PageHistory(visits) && GetAfterPut(visits, i, k)
    requires RightVisit(visits[i], i0, i1) && RightVisit(visits[k], k0, k1)
    ensures Delivers(visits[i], visits[k], i0, k0, k1)
  {
    hide PageResponse, PageHistory, AsksForPage, RouteOf, Field, FieldLines, Section, AllDigits, LengthOf;
    hide RightlyAnswered, HttpServer.Answers, FindBlank;
    assert !TouchesPage(visits[k].outcome);
    PageKept(visits, i, k);
    StaysMounted(visits, i, k);
  }

  lemma PageAnswers(section: seq<byte>, held: nat, o: Outcome)
    requires Section(section) && HttpServer.Answers(section, held, o) && RouteOf(section) == ToUserPage
    ensures o in {PageMissing, PageTooLarge, PageFailed, PageSent}
  {
    hide Section, RouteOf, UploadAnswer;
  }

  /** One pass of the accept loop. The visit recorded is the one that took place. */
  method VisitOne(server: Server, fd: Socket) returns (ghost v: Visit)
    requires server.Valid()
    modifies server, server.storage, server.storage.fs, fd
    ensures server.Valid() && RightVisit(v, old(fd.Now()), fd.Now())
    ensures v.content == server.Contents(if Heard(v) then v.section else [], old(server.wsActive))
    ensures v.content.page == server.storage.fs.index && v.content.root == server.indexHtml
    ensures v.mounted == server.storage.mounted && (old(server.storage.mounted) ==> v.mounted)
    ensures server.storage.fs.faults == old(server.storage.fs.faults) + v.faults
    ensures !TouchesPage(v.outcome) ==> v.content.page == old(server.storage.fs.index)
    ensures Excused(v.outcome, v.section, old(server.wsActive), old(server.storage.fs.userDir),
                    old(server.storage.fs.index), fd.recvFailed, fd.sendFailed,
                    server.storage.Trouble(old(server.storage.fs.faults)))
  {
    hide Uploads, PageOut, HttpServer.Answers, UpgradeAnswered, OldOrPrefix, RouteOf, Section, WentOut, FindBlank;
    hide RightlyHeard, RightlyAnswered, RightlyServed, GaveUp, NoBlank, PageAfter, Excused, Server.Contents;
    var outcome;
    ghost var section, rest, held;
    outcome, section, rest, held := server.HandleClient(fd);
    v := Visit(outcome, section, rest, held, server.Contents(section, old(server.wsActive)), server.storage.mounted,
               server.storage.fs.faults - old(server.storage.fs.faults), fd.recvFailed, fd.sendFailed);
    ghost var before, after := old(fd.Now()), fd.Now();
    ContentsAre(server, section, old(server.wsActive));
    Hears(v, before, after);
    AnswersRightly(v, before, after);
    if Heard(v) {
      Serves(v, old(server.wsActive), old(server.storage.fs.userDir), old(server.storage.fs.index),
             before, after, server.storage.Trouble(old(server.storage.fs.faults)));
    } else {
      ServesNothing(v, before, after);
    }
  }

  lemma ContentsAre(server: Server, section: seq<byte>, active: bool)
    ensures var c := server.Contents(section, active);
      c.page == server.storage.fs.index && c.root == server.indexHtml &&
      (c.upgrade == [] || Ascii("HTTP/1.1") <= c.upgrade)
  {
    UpgradeText(server, section, active);
    hide Ascii;
  }

  lemma Hears(v: Visit, before: Snapshot, after: Snapshot)
    requires v.recvFailed == after.recvFailed && v.sendFailed == after.sendFailed
    requires Heard(v) ==>
      v.section + v.rest == before.incoming && Section(v.section) && v.held <= |v.rest| &&
      FindBlank(v.section + v.rest, 0) == Some(|v.section| - 4) && HttpServer.Answers(v.section, v.held, v.outcome)
    requires v.outcome == NoRequest ==> v.recvFailed && GaveUp(before.incoming, after.incoming)
    requires v.outcome == HeadersTooLarge ==> NoBlank(before.incoming)
    ensures RightlyHeard(v, before, after)
  {
    hide Section, FindBlank, HttpServer.Answers, GaveUp, NoBlank;
  }

  lemma AnswersRightly(v: Visit, before: Snapshot, after: Snapshot)
    requires WentOut(v.outcome, v.content, before.outgoing, after.outgoing, v.sendFailed)
    requires v.content.upgrade == [] || Ascii("HTTP/1.1") <= v.content.upgrade
    requires after.closes == before.closes + if v.outcome == Upgraded then 0 else 1
    ensures RightlyAnswered(v, before, after)
  {
    hide WentOut, Ascii;
  }

  lemma Serves(v: Visit, active: bool, dir: Storage.Entry, was: Storage.Entry, before: Snapshot, after: Snapshot,
               trouble: bool)
    requires Heard(v) && Section(v.section) && HttpServer.Answers(v.section, v.held, v.outcome)
    requires PageAfter(v.outcome, v.section, v.rest, was, v.content.page, v.mounted)
    requires v.outcome == PageSent ==> PageOut(v.content.page, before.outgoing, after.outgoing)
    requires Excused(v.outcome, v.section, active, dir, was, v.recvFailed, v.sendFailed, trouble)
    requires v.mounted && v.faults == 0 ==> !trouble
    ensures RightlyServed(v, before, after) && (!TouchesPage(v.outcome) ==> v.content.page == was)
  {
    hide Section, RouteOf, HttpServer.Answers, Uploads, OldOrPrefix, GoodKey, PageResponse;
    if RouteOf(v.section) == ToUserPage {
      PageAnswers(v.section, v.held, v.outcome);
    }
  }

  lemma ServesNothing(v: Visit, before: Snapshot, after: Snapshot)
    requires !Heard(v)
    ensures RightlyServed(v, before, after)
  {
  }

  lemma UpgradeText(server: Server, section: seq<byte>, active: bool)
    ensures var u := server.Contents(section, active).upgrade; u == [] || Ascii("HTTP/1.1") <= u
  {
    hide Section, Field, FieldLines, Accept.AcceptFor;
    if Section(section) && !active && GoodKey(section) {
      SwitchesFrom11(Accept.AcceptFor(Field(FieldLines(section), Accept.KeyName()).value));
    }
  }

  lemma SwitchesFrom11(accept: string)
    ensures Ascii("HTTP/1.1") <= Ascii(SwitchingProtocols(accept))
  {
    var first := "HTTP/1.1 101 Switching Protocols";
    var t := SwitchingProtocols(accept);
    assert first[..8] == "HTTP/1.1" && t[..|first|] == first;
    assert t[..8] == first[..8];
    assert Ascii(t)[..8] == Ascii("HTTP/1.1");
  }

  lemma NoVisits()
    ensures PageHistory([]) && TotalFaults([]) == 0
  {
  }

  lemma VisitsSnoc(visits: seq<Visit>, v: Visit)
    requires PageHistory(visits)
    requires |visits| > 0 ==>
      var last := visits[|visits| - 1];
      (!TouchesPage(v.outcome) ==> v.content.page == last.content.page) && (last.mounted ==> v.mounted)
    ensures PageHistory(visits + [v]) && TotalFaults(visits + [v]) == TotalFaults(visits) + v.faults
  {
    assert (visits + [v])[..|visits|] == visits;
  }

  /** The accept loop over any list of clients. The visits recorded are those that took place. */
  method ServeAll(server: Server, fds: seq<Socket>) returns (ghost visits: seq<Visit>)
    requires server.Valid()
    requires forall i, j :: 0 <= i < j < |fds| ==> fds[i] != fds[j]
    modifies server, server.storage, server.storage.fs, fds
    ensures server.Valid() && |visits| == |fds| && PageHistory(visits)
    ensures forall k :: 0 <= k < |fds| ==> RightVisit(visits[k], old(fds[k].Now()), fds[k].Now())
    ensures server.storage.fs.faults == old(server.storage.fs.faults) + TotalFaults(visits)
    ensures forall k :: 0 <= k < |fds| ==> visits[k].content.root == server.indexHtml
  {
    hide RightVisit, Excused, Server.Contents, Server.Valid, Socket.Now, TouchesPage, Heard, PageHistory, TotalFaults;
    visits := [];
    NoVisits();
    for n := 0 to |fds|
      invariant server.Valid() && |visits| == n && PageHistory(visits)
      invariant n > 0 ==> server.storage.fs.index == visits[n - 1].content.page
      invariant n > 0 ==> server.storage.mounted == visits[n - 1].mounted
      invariant server.storage.fs.faults == old(server.storage.fs.faults) + TotalFaults(visits)
      invariant forall k :: n <= k < |fds| ==> fds[k].Now() == old(fds[k].Now())
      invariant forall k :: 0 <= k < n ==> visits[k].content.root == server.indexHtml
      invariant forall k :: 0 <= k < n ==> RightVisit(visits[k], old(fds[k].Now()), fds[k].Now())
    {
      ghost var v := VisitOne(server, fds[n]);
      VisitsSnoc(visits, v);
      visits := visits + [v];
    }
  }

  /** What PutThenGet says holds of any two of the visits. */
  method ServeClients(server: Server, fds: seq<Socket>) returns (ghost visits: seq<Visit>)
    requires server.Valid()
    requires forall i, j :: 0 <= i < j < |fds| ==> fds[i] != fds[j]
    modifies server, server.storage, server.storage.fs, fds
    ensures server.Valid() && |visits| == |fds| && PageHistory(visits)
    ensures forall k :: 0 <= k < |fds| ==> RightVisit(visits[k], old(fds[k].Now()), fds[k].Now())
    ensures server.storage.fs.faults == old(server.storage.fs.faults) + TotalFaults(visits)
    ensures forall k :: 0 <= k < |fds| ==> visits[k].content.root == server.indexHtml
    ensures forall i, k :: 0 <= i < k < |fds| && GetAfterPut(visits, i, k) ==>
      Delivers(visits[i], visits[k], old(fds[i].Now()), old(fds[k].Now()), fds[k].Now())
  {
    hide RightVisit, Delivers, GetAfterPut, TotalFaults, Socket.Now, PageHistory;
    visits := ServeAll(server, fds);
    forall i, k | 0 <= i < k < |fds| && GetAfterPut(visits, i, k)
      ensures Delivers(visits[i], visits[k], old(fds[i].Now()), old(fds[k].Now()), fds[k].Now())
    {
      PutThenGet(visits, i, k, old(fds[i].Now()), fds[i].Now(), old(fds[k].Now()), fds[k].Now());
    }
  }

  /** A whole WebSocket session of a client that sends the frames cs and then the octets tail, which
      may stop inside a frame. Its text payloads reach the bridge unmasked and in order, up to and
      including the first frame that ends the session, unless a poll, a receive or a send fails; the
      output, as long as no send fails, is one frame stream that decodes in one way only, answers the
      client one for one, the texts with what the bridge answered, and otherwise forwards what the
      bridge handed out. */
  method RunSession(server: Server, ghost cs: seq<WsStream.ClientFrame>, ghost tail: seq<byte>, turns: nat)
    returns (t: WsEngine.Turned)
    requires server.Valid() && server.wsClient != null
    requires server.SessionStarted(server.wsClient.fd, server.wsClient.stream)
    requires forall c :: c in cs ==> WsStream.WellFormed(c)
    requires server.wsClient.stream == WsStream.EncodeClients(cs) + tail
    modifies server, server.wsClient, server.wsClient.fd, server.bridge
    ensures server.Valid() && !server.wsActive && server.wsClient == old(server.wsClient)
    ensures server.wsClient.Valid() && server.wsClient.fd.closes == old(server.wsClient.fd.closes) + 1
    ensures var ws, meant := server.wsClient, WsStream.Then(WsStream.Meant(cs), tail);
      && ws.acts <= meant
      && (t == WsEngine.Closed ==> ws.acts == meant && WsStream.Ended(meant))
      && (t == WsEngine.GoOn ==> |ws.acts| + ws.fd.idlePolls == old(ws.fd.idlePolls) + turns)
      && (t == WsEngine.PollFailed ==> ws.fd.pollFailed)
      && (t == WsEngine.RecvFailed ==> ws.fd.recvFailed && (ws.fd.incoming == [] ==> ws.acts == meant))
      && (t == WsEngine.SendFailed ==> ws.fd.sendFailed)
    ensures server.bridge.seen == old(server.bridge.seen) + WsWire.Payloads(server.wsClient.acts)
    ensures server.bridge.answered ==
            old(server.bridge.answered) + WsWire.BridgeTexts(server.wsClient.acts, server.wsClient.texts)
    ensures server.bridge.received == old(server.bridge.received) + WsWire.RxTexts(server.wsClient.log)
    ensures var ws := server.wsClient;
      && WsWire.LoopShaped(ws.log)
      && (!ws.fd.sendFailed ==>
          WsFrames.DecodeAll(WsWire.Wire(ws.log)) == Some(WsWire.Frames(ws.log)) &&
          WsWire.Answers(ws.log) == WsWire.Due(ws.acts, ws.texts))
      && (WsWire.PongsComplete(ws.log) ==> WsWire.Wire(ws.log) <= WsFrames.EncodeAll(WsWire.Frames(ws.log)))
  {
    hide WsStream.Acts, WsStream.Ended, WsStream.Then, WsWire.Wire, WsWire.Answers, WsWire.Due, WsFrames.DecodeAll,
         WsFrames.EncodeAll, WsWire.Payloads, WsWire.BridgeTexts, WsWire.RxTexts,
         WsWire.LoopShaped;
    t := server.WebsocketThread(turns);
    WsStream.ActsAreMeant(cs, tail);
    ghost var log := server.wsClient.log;
    if !server.wsClient.fd.sendFailed {
      WsWire.OutputDecodes(log);
    }
    if WsWire.PongsComplete(log) {
      WsWire.LoopOutputIsPrefix(log);
    }
  }
}
