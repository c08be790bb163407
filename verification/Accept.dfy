/** The Sec-WebSocket-Accept value of RFC 6455 section 4.2.2, and the function that builds it. */
module Accept {
  import opened Bytes
  import opened Headers
  import Base64
  import Sha1Spec
  import Sha1

  const EINVAL := -22

  /** The GUID that RFC 6455 appends to every key. */
  function Guid(): (g: seq<byte>)
    ensures |g| == 36
  {
    Ascii("258EAFA5-E914-47DA-95CA-C5AB0DC85B11")
  }

  function KeyName(): seq<byte> {
    Ascii("Sec-WebSocket-Key")
  }

  /** RFC 6455: the Base64 form of the SHA-1 digest of the key followed by the GUID. */
  function AcceptFor(key: seq<byte>): (t: string)
    requires |key| <= 64
  {
    Base64.Encode(Sha1Spec.Sha1(key + Guid()))
  }

  lemma KeyNameIsField()
    ensures FieldName(KeyName())
  {
  }

  lemma AcceptLength(key: seq<byte>)
    requires |key| <= 64
    ensures |AcceptFor(key)| == 28
  {
  }

  /** build_websocket_accept with the caller's 32-character buffer: it succeeds exactly for keys
      of 1 to 64 octets after trimming, and then the buffer holds the value RFC 6455 asks for. */
  method BuildWebsocketAccept(t: seq<byte>, accept: array<char>) returns (ret: int)
    requires Section(t) && accept.Length == 32
    modifies accept
    ensures var key := Field(FieldLines(t), KeyName());
      && (ret == 0 || ret == EINVAL)
      && (ret == 0 <==> key.Some? && 1 <= |key.value| <= 64)
      && (ret == 0 ==> accept[..28] == AcceptFor(key.value) && accept[28] == '\0')
  {
    hide Field, FieldLines, TrimRight, Base64.Encode, Sha1Spec.Sha1;
    KeyNameIsField();
    hide KeyName;
    var key := FindHeaderValue(t, KeyName());
    if key.None? {
      return EINVAL;
    }
    var keyLen := HeaderValueLen(t, key.value);
    if keyLen == 0 || keyLen > 64 {
      return EINVAL;
    }
    ghost var k := t[key.value..key.value + keyLen];
    AcceptLength(k);
    var digest := HashKey(t[key.value..key.value + keyLen]);
    ret := Base64.EncodeSmall(digest, accept);
  }

  lemma GuidText()
    ensures Guid() == Ascii("258EAFA5-E914-47DA-95CA-C5AB0DC85B11")
  {
  }

  /** The four SHA-1 calls of build_websocket_accept. */
  method HashKey(key: seq<byte>) returns (digest: seq<byte>)
    requires |key| <= 64
    ensures digest == Sha1Spec.Sha1(key + Guid())
  {
    hide Sha1Spec.Sha1, Guid, Sha1.Sha1Ctx.Represents, Sha1.Sha1Ctx.Valid;
    var sha1 := new Sha1.Sha1Ctx();
    sha1.Update(key);
    sha1.Update(Ascii("258EAFA5-E914-47DA-95CA-C5AB0DC85B11"));
    GuidText();
    assert sha1.msg == key + Guid();
    var out := new byte[20];
    sha1.Final(out);
    digest := out[..];
  }
}
