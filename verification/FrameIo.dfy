/** The frame writer and the two frame readers: one over a buffer of received bytes, one over a stream. */
module FrameIo {
  import opened Basics
  import opened Wire

  /** A byte sink, as `Write`: it takes `room` more bytes before it fails, and flushes or does not. */
  class Sink {
    var written: Bytes
    var room: nat
    const flushes: bool

    constructor (room: nat, flushes: bool)
      ensures written == [] && this.room == room && this.flushes == flushes
    {
      written := [];
      this.room, this.flushes := room, flushes;
    }

    /** What fits goes out, and it succeeds if that is everything. */
    method WriteAll(bytes: Bytes) returns (ok: bool)
      modifies this
      ensures ok <==> |bytes| <= old(room)
      ensures written == old(written) + Prefix(bytes, old(room)) && room == old(room) - |Prefix(bytes, old(room))|
    {
      var n := Min(|bytes|, room);
      written, room, ok := written + bytes[..n], room - n, n == |bytes|;
    }
  }

  function Prefix(bytes: Bytes, n: nat): (p: Bytes)
    ensures p <= bytes && (|bytes| <= n ==> p == bytes)
  {
    bytes[..Min(|bytes|, n)]
  }

  /** Writing two pieces one after the other puts out what writing both at once does. */
  lemma PrefixBoth(before: Bytes, a: Bytes, b: Bytes, n: nat)
    ensures |a| > n ==> before + Prefix(a, n) == before + Prefix(a + b, n)
    ensures |a| <= n ==> (before + a) + Prefix(b, n - |a|) == before + Prefix(a + b, n)
  {
    if |a| > n {
      assert Prefix(a, n) == Prefix(a + b, n);
    } else {
      assert Prefix(a + b, n) == a + Prefix(b, n - |a|);
    }
  }

  /** A byte source, as `Read`; `pos` counts the bytes taken from it. */
  class Source {
    const data: Bytes
    var pos: nat

    ghost predicate Valid()
      reads this
    {
      pos <= |data|
    }

    constructor (data: Bytes)
      ensures Valid() && this.data == data && pos == 0
    {
      this.data := data;
      pos := 0;
    }

    /** All the bytes asked for, or none of use. */
    method ReadExact(n: nat) returns (r: Outcome<Bytes>)
      requires Valid()
      modifies this
      ensures Valid()
      ensures r.Ok? <==> old(pos) + n <= |data|
      ensures r.Ok? ==> r.value == data[old(pos)..old(pos) + n] && pos == old(pos) + n
    {
      if pos + n <= |data| {
        r := Ok(data[pos..pos + n]);
        pos := pos + n;
      } else {
        pos := |data|;
        r := Err(Ascii("failed to fill whole buffer"));
      }
    }
  }

  method ValidateFrameDeclaration(total: nat, flags: Byte, keyConfigured: bool, ghost key: SessionKey)
    returns (r: Outcome<nat>)
    requires keyConfigured == key.Some?
    ensures r.Ok? <==> Declares(total, flags, key)
    ensures r.Ok? ==> r.value == total - 1
  {
    if flags != 0 && flags != 1 {
      return Err(Ascii("unknown frame flags"));
    }
    if (flags == 1) != keyConfigured {
      return Err(if flags == 1 then Ascii("encrypted frame but no key")
                 else Ascii("plaintext frame while key configured"));
    }
    if total < 1 {
      return Err(Ascii("frame too short"));
    }
    var remaining := total - 1;
    var overhead := if flags == 1 then NONCE_LEN + TAG_LEN else 0;
    if remaining < overhead + 3 {
      return Err(Ascii("frame too short"));
    }
    if remaining > overhead + 3 + MAX_FRAME_PAYLOAD {
      return Err(Ascii("frame too large"));
    }
    return Ok(remaining);
  }

  method ValidateProtocolVersion(inner: Bytes) returns (ok: bool)
    ensures ok == ValidVersion(inner)
  {
    if |inner| < 3 {
      return false;
    }
    var version := FromLe(inner[..2]);
    return version == PROTOCOL_VERSION;
  }

  method CopyInto(buf: array<Byte>, payload: Bytes)
    requires |payload| <= buf.Length
    modifies buf
    ensures buf[..|payload|] == payload && buf[|payload|..] == old(buf[|payload|..])
  {
    for i := 0 to |payload|
      invariant buf[..i] == payload[..i]
      invariant buf[|payload|..] == old(buf[|payload|..])
    {
      buf[i] := payload[i];
    }
  }

  /** Writes two pieces, the second only if the first went out. */
  method WriteTwo(w: Sink, a: Bytes, b: Bytes) returns (ok: bool)
    modifies w
    ensures ok <==> |a + b| <= old(w.room)
    ensures w.written == old(w.written) + Prefix(a + b, old(w.room))
    ensures ok ==> w.room == old(w.room) - |a + b|
  {
    PrefixBoth(w.written, a, b, w.room);
    ok := w.WriteAll(a);
    if ok {
      ok := w.WriteAll(b);
    }
  }

  /** Refuses oversize payloads, and otherwise writes one frame: all of it, or what the sink takes of it. */
  method WriteFrameEncrypted(w: Sink, tag: Byte, payload: Bytes, key: SessionKey, nonce: Bytes) returns (ok: bool)
    requires |nonce| == NONCE_LEN && LawfulKey(key)
    modifies w
    ensures |payload| > MAX_FRAME_PAYLOAD ==> !ok && w.written == old(w.written)
    ensures |payload| <= MAX_FRAME_PAYLOAD ==>
      var frame := FrameBytes(tag, payload, key, nonce);
      && w.written == old(w.written) + Prefix(frame, old(w.room))
      && (ok <==> |frame| <= old(w.room) && w.flushes)
  {
    if |payload| > MAX_FRAME_PAYLOAD {
      return false;
    }
    var inner := ToLe(PROTOCOL_VERSION, 2) + [tag] + payload;
    if key.Some? {
      var header := ToLe(1 + NONCE_LEN + |inner| + TAG_LEN, 4) + [1];
      assert header == Header(key, payload);
      var sealed := key.value.seal(nonce, inner, header);
      ok := WriteTwo(w, header, sealed);
    } else {
      var length := ToLe(1 + |inner|, 4);
      assert length + [0] == Header(key, payload);
      PrefixBoth(w.written, length + [0], inner, w.room);
      ok := WriteTwo(w, length, [0]);
      if ok {
        ok := w.WriteAll(inner);
      }
    }
    ok := ok && w.flushes;
  }

  /** The buffered reader: nothing yet, an error, or a frame copied out of the received bytes. */
  method TryDecodeFrame(data: Bytes, buf: array<Byte>, key: SessionKey)
    returns (r: Outcome<Option<(Byte, nat, nat)>>)
    modifies buf
    ensures
      match DecodeFrame(data, key, buf.Length)
      case NeedMore => r == Ok(None) && buf[..] == old(buf[..])
      case Malformed => r.Err? && buf[..] == old(buf[..])
      case Frame(tag, payload, consumed) =>
        && r == Ok(Some((tag, |payload|, consumed))) && |payload| <= buf.Length
        && buf[..|payload|] == payload && buf[|payload|..] == old(buf[|payload|..])
  {
    if |data| < 5 {
      return Ok(None);
    }
    var total := FromLe(data[..4]);
    var flags := data[4];
    var declared := ValidateFrameDeclaration(total, flags, key.Some?, key);
    if declared.Err? {
      return Err(declared.error);
    }
    var frameLen := 4 + total;
    if |data| < frameLen {
      return Ok(None);
    }
    var body := data[5..frameLen];
    var plain := body;
    if flags == 1 {
      var unsealed := key.value.open(body, data[..5]);
      if unsealed.None? {
        return Err(Ascii("decryption failed"));
      }
      plain := unsealed.value;
    }
    var version := ValidateProtocolVersion(plain);
    if !version {
      return Err(Ascii("unsupported protocol version"));
    }
    var payloadLen := |plain| - 3;
    if payloadLen > buf.Length {
      return Err(Ascii("frame too large"));
    }
    CopyInto(buf, plain[3..]);
    return Ok(Some((plain[2], payloadLen, frameLen)));
  }

  /** The streaming reader succeeds exactly when the rest of the stream begins with a frame, and then
      takes just that frame. */
  method ReadFrameEncrypted(source: Source, buf: array<Byte>, key: SessionKey) returns (r: Outcome<(Byte, nat)>)
    requires source.Valid()
    modifies source, buf
    ensures source.Valid()
    ensures
      var decoded := DecodeFrame(source.data[old(source.pos)..], key, buf.Length);
      && (r.Ok? <==> decoded.Frame?)
      && (r.Ok? ==> r.value == (decoded.tag, |decoded.payload|) && source.pos == old(source.pos) + decoded.consumed
                    && |decoded.payload| <= buf.Length && buf[..|decoded.payload|] == decoded.payload)
  {
    ghost var data := source.data[source.pos..];
    var lenBytes := source.ReadExact(4);
    if lenBytes.Err? {
      return Err(lenBytes.error);
    }
    assert lenBytes.value == data[..4];
    var total := FromLe(lenBytes.value);
    var flags := source.ReadExact(1);
    if flags.Err? {
      return Err(flags.error);
    }
    assert flags.value == [data[4]] && source.data[source.pos..] == data[5..];
    var declared := ValidateFrameDeclaration(total, flags.value[0], key.Some?, key);
    if declared.Err? {
      return Err(declared.error);
    }
    if flags.value[0] == 1 {
      r := ReadSealed(source, buf, key, declared.value, lenBytes.value + flags.value, data);
    } else {
      r := ReadPlain(source, buf, key, declared.value, data);
    }
  }

  /** The rest of a sealed frame. */
  method ReadSealed(source: Source, buf: array<Byte>, key: SessionKey, remaining: nat, aad: Bytes, ghost data: Bytes)
    returns (r: Outcome<(Byte, nat)>)
    requires source.Valid() && key.Some? && |data| >= 5 && FromLe(data[..4]) == remaining + 1 && aad == data[..5]
    requires Declares(remaining + 1, data[4], key) && source.data[source.pos..] == data[5..]
    modifies source, buf
    ensures source.Valid()
    ensures
      var decoded := DecodeFrame(data, key, buf.Length);
      && (r.Ok? <==> decoded.Frame?)
      && (r.Ok? ==> r.value == (decoded.tag, |decoded.payload|) && source.pos == old(source.pos) + decoded.consumed - 5
                    && |decoded.payload| <= buf.Length && buf[..|decoded.payload|] == decoded.payload)
  {
    var sealed := source.ReadExact(remaining);
    if sealed.Err? {
      return Err(sealed.error);
    }
    assert sealed.value == data[5..5 + remaining];
    var unsealed := key.value.open(sealed.value, aad);
    if unsealed.None? {
      return Err(Ascii("decryption failed"));
    }
    var plain := unsealed.value;
    var version := ValidateProtocolVersion(plain);
    if !version {
      return Err(Ascii("unsupported protocol version"));
    }
    var payloadLen := |plain| - 3;
    if payloadLen > buf.Length {
      return Err(Ascii("frame too large"));
    }
    CopyInto(buf, plain[3..]);
    return Ok((plain[2], payloadLen));
  }

  /** The rest of a plaintext frame: the version is checked before the payload is read. */
  method ReadPlain(source: Source, buf: array<Byte>, key: SessionKey, remaining: nat, ghost data: Bytes)
    returns (r: Outcome<(Byte, nat)>)
    requires source.Valid() && key.None? && |data| >= 5 && FromLe(data[..4]) == remaining + 1
    requires Declares(remaining + 1, data[4], key) && source.data[source.pos..] == data[5..]
    modifies source, buf
    ensures source.Valid()
    ensures
      var decoded := DecodeFrame(data, key, buf.Length);
      && (r.Ok? <==> decoded.Frame?)
      && (r.Ok? ==> r.value == (decoded.tag, |decoded.payload|) && source.pos == old(source.pos) + decoded.consumed - 5
                    && |decoded.payload| <= buf.Length && buf[..|decoded.payload|] == decoded.payload)
  {
    ghost var body := if |data| >= 5 + remaining then data[5..5 + remaining] else [];
    var header := source.ReadExact(3);
    if header.Err? {
      return Err(header.error);
    }
    assert header.value == data[5..8];
    assert |data| >= 5 + remaining ==> header.value[..2] == body[..2] && header.value[2] == body[2];
    var version := ValidateProtocolVersion(header.value);
    if !version {
      return Err(Ascii("unsupported protocol version"));
    }
    var payloadLen := remaining - 3;
    if payloadLen > buf.Length {
      return Err(Ascii("frame too large"));
    }
    var payload := source.ReadExact(payloadLen);
    if payload.Err? {
      return Err(payload.error);
    }
    assert payload.value == body[3..];
    CopyInto(buf, payload.value);
    return Ok((header.value[2], payloadLen));
  }

  /** Both readers on the same bytes: one succeeds exactly when the other does, with the same tag,
      payload and bytes consumed. */
  method ReadersAgree(data: Bytes, key: SessionKey, room: nat)
    returns (buffered: Option<(Byte, Bytes, nat)>, streamed: Option<(Byte, Bytes, nat)>)
    ensures buffered == streamed
    ensures forall tag: Byte, payload: Bytes, n: nat :: buffered == Some((tag, payload, n)) <==>
              n <= |data| && IsFrame(data[..n], key, tag, payload) && |payload| <= room
  {
    buffered, streamed := None, None;
    var buf := new Byte[room](_ => 0);
    var tried := TryDecodeFrame(data, buf, key);
    if tried.Ok? && tried.value.Some? {
      var (tag, len, consumed) := tried.value.value;
      buffered := Some((tag, buf[..len], consumed));
    }
    var source := new Source(data);
    assert data[0..] == data;
    var other := new Byte[room](_ => 0);
    var read := ReadFrameEncrypted(source, other, key);
    if read.Ok? {
      streamed := Some((read.value.0, other[..read.value.1], source.pos));
    }
    forall tag: Byte, payload: Bytes, n: nat
      ensures buffered == Some((tag, payload, n)) <==>
              n <= |data| && IsFrame(data[..n], key, tag, payload) && |payload| <= room
    {
      DecodeIff(data, key, room, tag, payload, n);
    }
  }
}
