/** Receiving a request up to the blank line that ends its header section. */
module HttpRequest {
  import opened Bytes
  import opened Net
  import opened Headers

  const HTTP_REQUEST_MAX: nat := 1536

  /** A blank line ends a header section at i. */
  predicate BlankAt(t: seq<byte>, i: nat)
  {
    CrlfAt(t, i) && CrlfAt(t, i + 2)
  }

  /** strstr(t, "\r\n\r\n"), which gives up at the first NUL. */
  function FindBlank(t: seq<byte>, i: nat): Option<nat>
    decreases |t| - i
  {
    if i >= |t| || t[i] == 0 then None else if BlankAt(t, i) then Some(i) else FindBlank(t, i + 1)
  }

  predicate NulFree(t: seq<byte>)
  {
    forall i :: 0 <= i < |t| ==> t[i] != 0
  }

  lemma {:induction false} FindBlankMeans(t: seq<byte>, i: nat)
    requires i <= |t| && NulFree(t[..i])
    ensures var h := FindBlank(t, i);
      h.Some? ==> i <= h.value && BlankAt(t, h.value) && NulFree(t[..h.value + 4]) &&
                  forall k :: i <= k < h.value ==> !BlankAt(t, k)
    ensures FindBlank(t, i).None? ==>
      forall k :: i <= k && BlankAt(t, k) ==> !NulFree(t[..k + 4])
    decreases |t| - i
  {
    if i < |t| && t[i] == 0 {
      forall k | i <= k && BlankAt(t, k)
        ensures !NulFree(t[..k + 4])
      {
        assert t[..k + 4][i] == 0;
      }
    } else if i < |t| && !BlankAt(t, i) {
      FindBlankMeans(t, i + 1);
    }
  }

  /** Receiving more cannot change what was found. */
  lemma {:induction false} FindBlankGrows(t: seq<byte>, more: seq<byte>, i: nat)
    requires FindBlank(t, i).Some?
    ensures FindBlank(t + more, i) == FindBlank(t, i)
    decreases |t| - i
  {
    if !BlankAt(t, i) {
      assert i + 4 <= |t| by { FindBlankRoom(t, i); }
      FindBlankGrows(t, more, i + 1);
    }
  }

  lemma {:induction false} FindBlankRoom(t: seq<byte>, i: nat)
    requires FindBlank(t, i).Some?
    ensures i <= FindBlank(t, i).value && FindBlank(t, i).value + 4 <= |t|
    decreases |t| - i
  {
    if !BlankAt(t, i) {
      FindBlankRoom(t, i + 1);
    }
  }

  /** What reading the request came to. */
  datatype Request = Ended | TooLarge | Complete(section: seq<byte>, pending: seq<byte>)

  /** No blank line ends within the octets the request buffer holds. */
  predicate NoBlank(s: seq<byte>)
  {
    |s| >= 1535 && FindBlank(s[..1535], 0) == None
  }

  /** What was taken from the stream ends before its first blank line does. */
  predicate GaveUp(before: seq<byte>, after: seq<byte>)
  {
    var got := |before| - |after|;
    0 <= got < 1535 && after == before[got..] && FindBlank(before[..got], 0) == None
  }

  /** The receive loop of handle_client. A request is complete exactly when the first blank line
      ends within 1535 octets and no NUL precedes its end, however the octets arrive, unless a
      receive fails before that. */
  method ReadRequest(fd: Socket) returns (r: Request)
    modifies fd`incoming, fd`recvFailed
    ensures r.Complete? ==> var s := old(fd.incoming);
      && s == r.section + r.pending + fd.incoming && Section(r.section)
      && FindBlank(s, 0) == Some(|r.section| - 4) && |r.section + r.pending| < HTTP_REQUEST_MAX
    ensures r == TooLarge ==> NoBlank(old(fd.incoming))
    ensures r == Ended ==> fd.recvFailed && GaveUp(old(fd.incoming), fd.incoming)
    ensures r != Ended ==> fd.recvFailed == old(fd.recvFailed)
  {
    hide FindBlank, Section, CrlfAt;
    var request := new byte[HTTP_REQUEST_MAX];
    ghost var s := fd.incoming;
    var used := 0;
    NothingYet(s);
    while used < HTTP_REQUEST_MAX - 1
      invariant 0 <= used <= HTTP_REQUEST_MAX - 1 && used <= |s|
      invariant request[..used] == s[..used] && fd.incoming == s[used..] && fd.recvFailed == old(fd.recvFailed)
      invariant FindBlank(s[..used], 0) == None
      decreases HTTP_REQUEST_MAX - used
    {
      var len := ReceiveMore(fd, request, used, s);
      if len <= 0 {
        return Ended;
      }
      used := used + len;
      var headerEnd := FindBlank(request[..used], 0);
      if headerEnd.Some? {
        SectionFound(s, used, headerEnd.value);
        r := Complete(request[..used][..headerEnd.value + 4], request[..used][headerEnd.value + 4..]);
        return;
      }
    }
    r := TooLarge;
  }

  /** One zsock_recv behind the octets held, and the terminator behind what it gave. */
  method ReceiveMore(fd: Socket, request: array<byte>, used: nat, ghost s: seq<byte>) returns (len: int)
    requires used < HTTP_REQUEST_MAX - 1 && request.Length == HTTP_REQUEST_MAX && used <= |s|
    requires request[..used] == s[..used] && fd.incoming == s[used..]
    modifies request, fd`incoming, fd`recvFailed
    ensures len <= 0 ==> fd.recvFailed && fd.incoming == old(fd.incoming)
    ensures len > 0 ==> used + len <= HTTP_REQUEST_MAX - 1 && used + len <= |s| && request[used + len] == 0
    ensures len > 0 ==> request[..used + len] == s[..used + len] && fd.incoming == s[used + len..]
    ensures len > 0 ==> fd.recvFailed == old(fd.recvFailed)
  {
    len := fd.Recv(request, used, HTTP_REQUEST_MAX - 1 - used);
    if len > 0 {
      DropMore(s, used, len);
      request[used + len] := 0;
    }
  }

  lemma NothingYet(s: seq<byte>)
    ensures FindBlank(s[..0], 0) == None
  {
  }

  lemma SectionFound(s: seq<byte>, used: nat, h: nat)
    requires used <= |s| && FindBlank(s[..used], 0) == Some(h)
    ensures h + 4 <= used && Section(s[..h + 4]) && FindBlank(s, 0) == Some(h)
    ensures s[..used][..h + 4] == s[..h + 4] && s[..used][h + 4..] == s[h + 4..used]
    ensures s[..h + 4] + s[h + 4..used] + s[used..] == s
  {
    hide FindBlank, Section, BlankAt, NulFree;
    var t := s[..used];
    assert NulFree(t[..0]) by { NulFreeNothing(t); }
    FindBlankMeans(t, 0);
    FindBlankRoom(t, 0);
    FindBlankGrows(t, s[used..], 0);
    IsSection(t, h);
    Cuts(s, h + 4, used);
  }

  lemma NulFreeNothing(t: seq<byte>)
    ensures NulFree(t[..0])
  {
  }

  lemma Cuts(s: seq<byte>, i: nat, j: nat)
    requires i <= j <= |s|
    ensures s[..j] + s[j..] == s && s[..i] + s[i..j] + s[j..] == s && s[..j][..i] == s[..i]
  {
  }

  lemma IsSection(t: seq<byte>, h: nat)
    requires BlankAt(t, h) && NulFree(t[..h + 4])
    ensures Section(t[..h + 4])
  {
    var sec := t[..h + 4];
    assert sec[h] == t[h] && sec[h + 1] == t[h + 1] && sec[h + 2] == t[h + 2] && sec[h + 3] == t[h + 3];
  }
}
