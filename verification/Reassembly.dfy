/**
 The worker's end of the control session: bytes arrive in pieces of any size, frames are cut out of
 a fixed buffer, and each control message is handed on in order until the first malformed one.
 */
module Reassembly {
  import opened Basics
  import opened Messages
  import opened Wire
  import opened FrameIo
  import opened MessageCodec
  import opened AgentCodec

  const READ_BUFFER_SIZE: nat := 32768

  // -- Cutting a stream into messages --

  /** What the bytes at the start of a stream are: too few, wrong, or a message of `n` bytes. */
  datatype Piece = Wait | Bad | Message(m: ControlMessage, n: nat)

  type Cutter = Bytes -> Piece

  function Cut(data: Bytes, key: SessionKey): Piece {
    match DecodeFrame(data, key, MAX_FRAME_PAYLOAD)
    case NeedMore => Wait
    case Malformed => Bad
    case Frame(tag, payload, n) =>
      var m := DecodeControl(tag, payload);
      if m.None? then Bad else Message(m.value, n)
  }

  function FrameCutter(key: SessionKey): Cutter {
    data => Cut(data, key)
  }

  /** The message found does not depend on what follows it. */
  predicate SelfContained(cut: Cutter, data: Bytes) {
    cut(data).Message? && cut(data).n <= |data| ==> cut(data[..cut(data).n]) == cut(data)
  }

  predicate Decided(cut: Cutter, data: Bytes, more: Bytes) {
    !cut(data).Wait? ==> cut(data + more) == cut(data)
  }

  /** A cutter that decides as soon as it can and never looks past the message it finds. */
  ghost predicate Steady(cut: Cutter) {
    && (forall data: Bytes :: cut(data).Message? ==> 0 < cut(data).n <= |data|)
    && (forall data: Bytes :: SelfContained(cut, data))
    && (forall data: Bytes, more: Bytes :: Decided(cut, data, more))
  }

  lemma FrameCutterIsSteady(key: SessionKey)
    ensures Steady(FrameCutter(key))
  {
    var cut := FrameCutter(key);
    forall data: Bytes
      ensures cut(data).Message? ==> 0 < cut(data).n <= |data|
      ensures SelfContained(cut, data)
    {
      if cut(data).Message? {
        CutsOneFrame(data, key);
      }
    }
    forall data: Bytes, more: Bytes
      ensures Decided(cut, data, more)
    {
      if !cut(data).Wait? {
        DecodeStable(data, more, key, MAX_FRAME_PAYLOAD);
      }
    }
  }

  lemma CutsOneFrame(data: Bytes, key: SessionKey)
    requires Cut(data, key).Message?
    ensures 0 < Cut(data, key).n <= |data| && Cut(data[..Cut(data, key).n], key) == Cut(data, key)
  {
    var d := DecodeFrame(data, key, MAX_FRAME_PAYLOAD);
    var frame := data[..d.consumed];
    DecodeIff(data, key, MAX_FRAME_PAYLOAD, d.tag, d.payload, d.consumed);
    assert frame[..d.consumed] == frame;
    DecodeIff(frame, key, MAX_FRAME_PAYLOAD, d.tag, d.payload, d.consumed);
  }

  /** What a whole stream of bytes says: its messages, and whether it stays well formed. */
  datatype Meaning = Meaning(messages: seq<ControlMessage>, wellFormed: bool)

  ghost function Meant(data: Bytes, cut: Cutter): Meaning
    requires Steady(cut)
    decreases |data|
  {
    match cut(data)
    case Wait => Meaning([], true)
    case Bad => Meaning([], false)
    case Message(m, n) =>
      var rest := Meant(data[n..], cut);
      Meaning([m] + rest.messages, rest.wellFormed)
  }

  /** The consumed bytes are frames that said exactly the messages handed on. */
  predicate Spells(used: Bytes, messages: seq<ControlMessage>, cut: Cutter)
    decreases |messages|
  {
    if messages == [] then used == []
    else
      var p := cut(used);
      p.Message? && p.m == messages[0] && p.n <= |used| && Spells(used[p.n..], messages[1..], cut)
  }

  lemma {:induction false} MeantStep(used: Bytes, cut: Cutter, rest: Bytes)
    requires Steady(cut) && cut(used).Message?
    ensures
      var after := Meant(used[cut(used).n..] + rest, cut);
      Meant(used + rest, cut) == Meaning([cut(used).m] + after.messages, after.wellFormed)
  {
    assert Decided(cut, used, rest);
    assert (used + rest)[cut(used).n..] == used[cut(used).n..] + rest;
  }

  lemma HeadFirst(ms: seq<ControlMessage>, more: seq<ControlMessage>)
    requires ms != []
    ensures [ms[0]] + (ms[1..] + more) == ms + more
  {
    assert ms == [ms[0]] + ms[1..];
  }

  /** Consumed frames do not change what the rest says. */
  lemma {:induction false} SpelledThenMeant(used: Bytes, messages: seq<ControlMessage>, cut: Cutter, rest: Bytes)
    requires Steady(cut) && Spells(used, messages, cut)
    ensures Meant(used + rest, cut) == Meaning(messages + Meant(rest, cut).messages, Meant(rest, cut).wellFormed)
    decreases |messages|
  {
    if messages == [] {
      assert used + rest == rest;
    } else {
      MeantStep(used, cut, rest);
      SpelledThenMeant(used[cut(used).n..], messages[1..], cut, rest);
      HeadFirst(messages, Meant(rest, cut).messages);
    }
  }

  /** One more frame consumed. */
  lemma {:induction false} SpellsMore(used: Bytes, messages: seq<ControlMessage>, cut: Cutter, data: Bytes)
    requires Steady(cut) && Spells(used, messages, cut) && cut(data).Message?
    ensures Spells(used + data[..cut(data).n], messages + [cut(data).m], cut)
    decreases |messages|
  {
    var frame := data[..cut(data).n];
    var m := cut(data).m;
    assert SelfContained(cut, data);
    if messages == [] {
      assert used + frame == frame && messages + [m] == [m];
      assert frame[cut(frame).n..] == [] && [m][1..] == [];
    } else {
      var n := cut(used).n;
      assert Decided(cut, used, frame);
      assert (used + frame)[n..] == used[n..] + frame;
      SpellsMore(used[n..], messages[1..], cut, data);
      assert (messages + [m])[1..] == messages[1..] + [m];
    }
  }

  /** Cutting one more message keeps what was handed on a prefix of what the stream says. */
  lemma {:induction false} HandedOn(used: Bytes, messages: seq<ControlMessage>, cut: Cutter, data: Bytes)
    requires Steady(cut) && Spells(used, messages, cut) && cut(data).Message?
    ensures
      var n := cut(data).n;
      && used + data == used + data[..n] + data[n..]
      && Spells(used + data[..n], messages + [cut(data).m], cut)
      && messages + [cut(data).m] <= Meant(used + data, cut).messages
  {
    var n := cut(data).n;
    SpellsMore(used, messages, cut, data);
    assert data == data[..n] + data[n..];
    assert used + data == used + data[..n] + data[n..];
    SpelledThenMeant(used + data[..n], messages + [cut(data).m], cut, data[n..]);
  }

  /** When no message can be cut, everything the stream says has been handed on. */
  lemma {:induction false} AllHandedOn(used: Bytes, messages: seq<ControlMessage>, cut: Cutter, data: Bytes)
    requires Steady(cut) && Spells(used, messages, cut) && !cut(data).Message?
    ensures Meant(used + data, cut) == Meaning(messages, cut(data).Wait?)
  {
    SpelledThenMeant(used, messages, cut, data);
    assert messages + [] == messages;
  }

  lemma {:induction false} StillPrefix(used: Bytes, messages: seq<ControlMessage>, cut: Cutter, data: Bytes)
    requires Steady(cut) && Spells(used, messages, cut)
    ensures messages <= Meant(used + data, cut).messages
  {
    SpelledThenMeant(used, messages, cut, data);
  }

  /** What the socket does next. */
  datatype Arrival = Chunk(bytes: Bytes) | Closed | Blocked | Interrupted | Broken

  datatype ReadResult = Read(bytes: Bytes) | WouldBlock | Retry | Failed

  /** Everything still to come, as a measure. */
  function Outstanding(arriving: seq<Arrival>): nat {
    if arriving == [] then 0
    else 1 + (if arriving[0].Chunk? then |arriving[0].bytes| else 0) + Outstanding(arriving[1..])
  }

  /** The bytes still to come before the stream ends. */
  function Incoming(arriving: seq<Arrival>): Bytes {
    if arriving == [] then []
    else
      match arriving[0]
      case Chunk(bytes) => bytes + Incoming(arriving[1..])
      case Closed | Broken => []
      case Blocked | Interrupted => Incoming(arriving[1..])
  }

  predicate Ended(arriving: seq<Arrival>) {
    arriving != [] && (arriving[0].Closed? || arriving[0].Broken?)
  }

  /** How often reading is still to find nothing. */
  function Pauses(arriving: seq<Arrival>): nat {
    if arriving == [] then 0 else (if arriving[0].Blocked? then 1 else 0) + Pauses(arriving[1..])
  }

  lemma SplitChunk(arriving: seq<Arrival>, space: nat)
    requires arriving != [] && arriving[0].Chunk? && space <= |arriving[0].bytes|
    ensures
      var left := [Chunk(arriving[0].bytes[space..])] + arriving[1..];
      && arriving[0].bytes[..space] + Incoming(left) == Incoming(arriving)
      && Pauses(left) == Pauses(arriving) && Outstanding(left) == Outstanding(arriving) - space
  {
    var b := arriving[0].bytes;
    var left := [Chunk(b[space..])] + arriving[1..];
    assert left[1..] == arriving[1..];
    assert b == b[..space] + b[space..];
    assert b[..space] + (b[space..] + Incoming(arriving[1..])) == b + Incoming(arriving[1..]);
  }

  /** A non-blocking socket: each read delivers part of what has arrived, at most as much as there is
      space for; an empty read is the end of the stream. */
  class Socket {
    var arriving: seq<Arrival>

    constructor (arriving: seq<Arrival>)
      ensures this.arriving == arriving
    {
      this.arriving := arriving;
    }

    method Receive(space: nat) returns (r: ReadResult)
      requires space > 0
      modifies this
      ensures r.Read? ==> |r.bytes| <= space && r.bytes + Incoming(arriving) == Incoming(old(arriving))
      ensures !r.Read? ==> Incoming(arriving) == Incoming(old(arriving))
      ensures (r.Read? && r.bytes == []) || r.Failed? ==> Ended(arriving)
      ensures r.Retry? || (r.Read? && r.bytes != []) ==>
                Outstanding(arriving) < Outstanding(old(arriving)) && Pauses(arriving) == Pauses(old(arriving))
      ensures r.WouldBlock? ==> arriving == [] || Pauses(arriving) < Pauses(old(arriving))
    {
      if arriving == [] {
        return WouldBlock;
      }
      var next := arriving[0];
      match next
      case Chunk(bytes) =>
        if bytes == [] {
          arriving := arriving[1..];
          return Retry;
        }
        if |bytes| <= space {
          arriving := arriving[1..];
          return Read(bytes);
        }
        SplitChunk(arriving, space);
        arriving := [Chunk(bytes[space..])] + arriving[1..];
        return Read(bytes[..space]);
      case Closed => return Read([]);
      case Blocked =>
        arriving := arriving[1..];
        return WouldBlock;
      case Interrupted =>
        arriving := arriving[1..];
        return Retry;
      case Broken => return Failed;
    }
  }

  class RealIo {
    const socket: Socket
    const key: SessionKey
    const outgoing: Sink
    const frameBuf: array<Byte>
    const readBuf: array<Byte>
    const writeBuf: array<Byte>
    var framePos: nat
    var connected: bool

    // The bytes that were cut into frames, the bytes received after them, and the messages handed on.
    ghost var used: Bytes
    ghost var tail: Bytes
    ghost var delivered: seq<ControlMessage>

    ghost predicate Valid()
      reads this, frameBuf
    {
      && frameBuf.Length == READ_BUFFER_SIZE && readBuf.Length == MAX_FRAME_PAYLOAD && frameBuf != readBuf
      && writeBuf.Length == MAX_FRAME_PAYLOAD && writeBuf != frameBuf
      && framePos <= frameBuf.Length
      && Spells(used, delivered, FrameCutter(key))
      && (connected ==> tail == frameBuf[..framePos])
    }

    /** All bytes read from the socket. */
    ghost function Received(): Bytes
      reads this
    {
      used + tail
    }

    /** What the bytes received so far say. */
    ghost function Said(): Meaning
      reads this
    {
      FrameCutterIsSteady(key);
      Meant(Received(), FrameCutter(key))
    }

    /** The messages handed on are always a prefix of what the received bytes say. */
    lemma Faithful()
      requires Valid()
      ensures delivered <= Said().messages
    {
      FrameCutterIsSteady(key);
      StillPrefix(used, delivered, FrameCutter(key), tail);
    }

    constructor (socket: Socket, outgoing: Sink, key: SessionKey)
      ensures Valid() && connected && Received() == [] && delivered == []
      ensures this.socket == socket && this.outgoing == outgoing && this.key == key
      ensures fresh(frameBuf) && fresh(readBuf) && fresh(writeBuf)
    {
      this.socket := socket;
      this.outgoing := outgoing;
      this.key := key;
      frameBuf := new Byte[READ_BUFFER_SIZE](_ => 0);
      readBuf := new Byte[MAX_FRAME_PAYLOAD](_ => 0);
      writeBuf := new Byte[MAX_FRAME_PAYLOAD](_ => 0);
      framePos := 0;
      connected := true;
      used, tail, delivered := [], [], [];
    }

    /** Moves the bytes after the first `n` to the front of the buffer. */
    method Shift(n: nat)
      requires n <= framePos <= frameBuf.Length
      modifies this`framePos, frameBuf
      ensures framePos == old(framePos) - n && frameBuf[..framePos] == old(frameBuf[n..framePos])
    {
      ghost var before := frameBuf[..];
      var left := framePos - n;
      for i := 0 to left
        invariant frameBuf[..i] == before[n..n + i]
        invariant frameBuf[i..] == before[i..]
      {
        frameBuf[i] := frameBuf[n + i];
      }
      framePos := left;
    }

    /** Cuts the next frame out of the buffer; a malformed frame or message ends the session. */
    method DecodeBufferedFrame() returns (r: Option<ControlMessage>)
      requires Valid() && connected
      modifies this`framePos, this`connected, this`used, this`tail, this`delivered, frameBuf, readBuf
      ensures Valid() && Received() == old(Received())
      ensures r.Some? ==> connected && delivered == old(delivered) + [r.value]
      ensures r.None? ==> delivered == old(delivered) && Said() == Meaning(delivered, connected)
      ensures r.None? && connected ==> framePos < 16432
    {
      FrameCutterIsSteady(key);
      var p := CutBuffered();
      r := HandOn(p, FrameCutter(key));
    }

    /** Keeps account of a piece cut from the unconsumed bytes. */
    method HandOn(p: Piece, ghost cut: Cutter) returns (r: Option<ControlMessage>)
      requires Steady(cut) && p == cut(tail) && Spells(used, delivered, cut) && connected
      modifies this`connected, this`used, this`tail, this`delivered
      ensures Spells(used, delivered, cut) && Received() == old(Received())
      ensures r.Some? <==> p.Message?
      ensures r.Some? ==> connected && delivered == old(delivered) + [r.value] && tail == old(tail)[p.n..]
      ensures r.None? ==> connected == p.Wait? && used == old(used) && tail == old(tail) && delivered == old(delivered)
      ensures r.None? ==> Meant(Received(), cut) == Meaning(delivered, connected)
    {
      match p
      case Wait =>
        AllHandedOn(used, delivered, cut, tail);
        return None;
      case Bad =>
        AllHandedOn(used, delivered, cut, tail);
        connected := false;
        return None;
      case Message(m, n) =>
        HandedOn(used, delivered, cut, tail);
        used, tail := used + tail[..n], tail[n..];
        delivered := delivered + [m];
        return Some(m);
    }

    /** What the buffer begins with; a complete frame is removed from it. */
    method CutBuffered() returns (p: Piece)
      requires frameBuf.Length == READ_BUFFER_SIZE && readBuf.Length == MAX_FRAME_PAYLOAD && frameBuf != readBuf
      requires framePos <= frameBuf.Length
      modifies this`framePos, frameBuf, readBuf
      ensures p == Cut(old(frameBuf[..framePos]), key)
      ensures p.Wait? ==> framePos == old(framePos) < 16432 && frameBuf[..framePos] == old(frameBuf[..framePos])
      ensures p.Message? ==> p.n <= old(framePos) && framePos == old(framePos) - p.n
      ensures p.Message? ==> frameBuf[..framePos] == old(frameBuf[p.n..framePos])
      ensures framePos <= frameBuf.Length
    {
      ghost var data := frameBuf[..framePos];
      var tried := TryDecodeFrame(frameBuf[..framePos], readBuf, key);
      if tried.Err? {
        return Bad;
      }
      if tried.value.None? {
        IncompleteIsShort(data, key, MAX_FRAME_PAYLOAD);
        return Wait;
      }
      var (tag, payloadLen, consumed) := tried.value.value;
      var message := DecodeControlMessage(tag, readBuf[..payloadLen]);
      Shift(consumed);
      if message.Err? {
        return Bad;
      }
      return Message(message.value, consumed);
    }

    /** Appends what was read to the buffered bytes. */
    method Append(bytes: Bytes)
      requires framePos + |bytes| <= frameBuf.Length
      modifies this`framePos, frameBuf
      ensures framePos == old(framePos) + |bytes| && frameBuf[..framePos] == old(frameBuf[..framePos]) + bytes
    {
      var at := framePos;
      ghost var before := frameBuf[..at];
      for i := 0 to |bytes|
        invariant framePos == at && frameBuf[..at + i] == before + bytes[..i]
      {
        frameBuf[at + i] := bytes[i];
      }
      framePos := at + |bytes|;
    }

    /** The next message, if one can be had without waiting. However the stream is split, the messages
        handed on are a prefix of what the received bytes say, and when none is returned they are all of
        it. No byte is lost or reordered; a live session returns nothing only when the socket has nothing;
        a session ends only for a malformed frame or message or at the end of the stream; and the buffer
        never fills up. */
    method Recv() returns (r: Option<ControlMessage>)
      requires Valid()
      modifies this`framePos, this`connected, this`used, this`tail, this`delivered, frameBuf, readBuf, socket
      ensures Valid()
      ensures Received() + Incoming(socket.arriving) == old(Received()) + old(Incoming(socket.arriving))
      ensures r.Some? ==> delivered == old(delivered) + [r.value] && connected
      ensures r.None? ==> delivered == old(delivered)
      ensures r.None? && old(connected) ==> Said().messages == delivered
      ensures r.None? && connected ==> Said().wellFormed
      ensures r.None? && connected ==> socket.arriving == [] || Pauses(socket.arriving) < old(Pauses(socket.arriving))
      ensures old(connected) && !connected ==> !Said().wellFormed || Ended(socket.arriving)
      ensures !old(connected) ==> r.None? && !connected && Received() == old(Received())
    {
      if !connected {
        return None;
      }
      while true
        invariant Valid() && connected && delivered == old(delivered)
        invariant Received() + Incoming(socket.arriving) == old(Received()) + old(Incoming(socket.arriving))
        invariant Pauses(socket.arriving) == old(Pauses(socket.arriving))
        decreases Outstanding(socket.arriving)
      {
        r := DecodeBufferedFrame();
        if r.Some? || !connected {
          return;
        }
        var more := ReadMore();
        if !more {
          return None;
        }
      }
    }

    /** One read from the socket into the space behind the buffered bytes. */
    method ReadMore() returns (more: bool)
      requires Valid() && connected && framePos < 16432
      modifies this`framePos, this`connected, this`tail, frameBuf, socket
      ensures Valid()
      ensures Received() + Incoming(socket.arriving) == old(Received()) + old(Incoming(socket.arriving))
      ensures more ==> connected && Outstanding(socket.arriving) < old(Outstanding(socket.arriving))
      ensures more ==> Pauses(socket.arriving) == old(Pauses(socket.arriving))
      ensures !more ==> Received() == old(Received())
      ensures !more && connected ==> socket.arriving == [] || Pauses(socket.arriving) < old(Pauses(socket.arriving))
      ensures !connected ==> Ended(socket.arriving)
    {
      // The branch for a full buffer is never taken.
      assert framePos < frameBuf.Length;
      var got := socket.Receive(frameBuf.Length - framePos);
      match got
      case Read(bytes) =>
        if bytes == [] {
          connected := false;
          return false;
        }
        Regroup(Received(), bytes, Incoming(socket.arriving));
        Receive(bytes);
        return true;
      case WouldBlock => return false;
      case Retry => return true;
      case Failed =>
        connected := false;
        return false;
    }

    /** Bytes arrive behind those that are buffered. */
    method Receive(bytes: Bytes)
      requires Valid() && connected && framePos + |bytes| <= frameBuf.Length
      modifies this`framePos, this`tail, frameBuf
      ensures Valid() && Received() == old(Received()) + bytes
    {
      Append(bytes);
      Regroup(used, tail, bytes);
      tail := tail + bytes;
    }

    /** Encodes a message and writes it as one frame; an error of either kind ends the session, and then
        only a prefix of the frame may have gone out. */
    method Send(m: WorkerMessage, nonce: Bytes)
      requires Valid() && Typed(m) && |nonce| == NONCE_LEN && LawfulKey(key)
      modifies this`connected, writeBuf, outgoing
      ensures Valid()
      ensures !old(connected) || !Encodable(m, MAX_FRAME_PAYLOAD) ==> !connected && outgoing.written == old(outgoing.written)
      ensures old(connected) && Encodable(m, MAX_FRAME_PAYLOAD) ==>
        var frame := FrameBytes(TagOf(m), AgentPayload(m), key, nonce);
        && outgoing.written == old(outgoing.written) + Prefix(frame, old(outgoing.room))
        && (connected <==> |frame| <= old(outgoing.room) && outgoing.flushes)
    {
      if !connected {
        return;
      }
      var encoded := EncodeAgentMessage(m, writeBuf);
      if encoded.Err? {
        connected := false;
        return;
      }
      PayloadFitsFrame(m);
      var (tag, len) := encoded.value;
      connected := WriteFrameEncrypted(outgoing, tag, writeBuf[..len], key, nonce);
    }
  }

  /** However the bytes were split: of two sessions that have received the same bytes, one has handed
      on a prefix of what the other has, and if both wait for more they have handed on the same. */
  lemma SplitInvariance(a: RealIo, b: RealIo)
    requires a.Valid() && b.Valid() && a.key == b.key && a.Received() == b.Received()
    ensures a.delivered <= b.delivered || b.delivered <= a.delivered
    ensures a.delivered == a.Said().messages && b.delivered == b.Said().messages ==> a.delivered == b.delivered
  {
    a.Faithful();
    b.Faithful();
  }

  /** A frame that was sent is read back by the peer, whatever follows it. */
  lemma SentIsReadBack(m: WorkerMessage, key: SessionKey, nonce: Bytes, rest: Bytes)
    requires Typed(m) && |nonce| == NONCE_LEN && LawfulKey(key)
    ensures
      var frame := FrameBytes(TagOf(m), AgentPayload(m), key, nonce);
      DecodeFrame(frame + rest, key, MAX_FRAME_PAYLOAD) == Frame(TagOf(m), AgentPayload(m), |frame|)
  {
    PayloadFitsFrame(m);
    FrameRoundTrip(TagOf(m), AgentPayload(m), key, nonce, rest, MAX_FRAME_PAYLOAD);
  }

  // -- From the control plane to the worker --

  /** A control message with the choices its sender made. */
  datatype Post = Post(m: ControlMessage, auth: bool, nonce: Bytes)
  {
    predicate Sendable() {
      SendableMessage(m, auth) && |ControlPayload(m, auth)| <= MAX_FRAME_PAYLOAD && |nonce| == NONCE_LEN
    }
  }

  function PostBytes(p: Post, key: SessionKey): Bytes
    requires p.Sendable()
  {
    FrameBytes(ControlTag(p.m), ControlPayload(p.m, p.auth), key, p.nonce)
  }

  /** The bytes of a session in which these messages are sent. */
  function StreamOf(posts: seq<Post>, key: SessionKey): Bytes
    requires forall p | p in posts :: p.Sendable()
  {
    if posts == [] then [] else PostBytes(posts[0], key) + StreamOf(posts[1..], key)
  }

  function MessagesOf(posts: seq<Post>): seq<ControlMessage> {
    if posts == [] then [] else [posts[0].m] + MessagesOf(posts[1..])
  }

  /** More bytes only add messages, and cannot repair a stream. */
  lemma {:induction false} MeantGrows(a: Bytes, b: Bytes, cut: Cutter)
    requires Steady(cut)
    ensures Meant(a, cut).messages <= Meant(a + b, cut).messages
    ensures Meant(a + b, cut).wellFormed ==> Meant(a, cut).wellFormed
    decreases |a|
  {
    assert Decided(cut, a, b);
    if cut(a).Message? {
      MeantStep(a, cut, b);
      MeantGrows(a[cut(a).n..], b, cut);
    }
  }

  lemma CutsPost(p: Post, key: SessionKey, rest: Bytes)
    requires p.Sendable() && LawfulKey(key)
    ensures Cut(PostBytes(p, key) + rest, key) == Message(p.m, |PostBytes(p, key)|)
  {
    FrameRoundTrip(ControlTag(p.m), ControlPayload(p.m, p.auth), key, p.nonce, rest, MAX_FRAME_PAYLOAD);
    ControlRoundTrip(p.m, p.auth);
  }

  lemma {:induction false} MeantPost(data: Bytes, n: nat, m: ControlMessage, cut: Cutter)
    requires Steady(cut) && n <= |data| && cut(data) == Message(m, n)
    ensures Meant(data, cut) == Meaning([m] + Meant(data[n..], cut).messages, Meant(data[n..], cut).wellFormed)
  {
  }

  /** What was sent is what the stream says. */
  lemma {:induction false} StreamMeant(posts: seq<Post>, key: SessionKey)
    requires LawfulKey(key) && (forall p | p in posts :: p.Sendable()) && Steady(FrameCutter(key))
    ensures Meant(StreamOf(posts, key), FrameCutter(key)) == Meaning(MessagesOf(posts), true)
  {
    if posts != [] {
      var p := posts[0];
      assert p in posts;
      var frame := PostBytes(p, key);
      var rest := StreamOf(posts[1..], key);
      CutsPost(p, key, rest);
      assert (frame + rest)[|frame|..] == rest;
      MeantPost(frame + rest, |frame|, p.m, FrameCutter(key));
      StreamMeant(posts[1..], key);
    }
  }

  /** End to end: while a worker has received part of what a control plane sent, in whatever pieces, it
      has handed on a prefix of the messages sent and found nothing malformed; and when it has received
      everything and is drained, exactly the messages sent. */
  lemma EndToEnd(io: RealIo, posts: seq<Post>)
    requires io.Valid() && LawfulKey(io.key) && forall p | p in posts :: p.Sendable()
    requires io.Received() <= StreamOf(posts, io.key)
    ensures io.delivered <= MessagesOf(posts) && io.Said().wellFormed
    ensures io.Received() == StreamOf(posts, io.key) && io.delivered == io.Said().messages ==>
              io.delivered == MessagesOf(posts)
  {
    var cut := FrameCutter(io.key);
    var stream := StreamOf(posts, io.key);
    FrameCutterIsSteady(io.key);
    StreamMeant(posts, io.key);
    assert stream == io.Received() + stream[|io.Received()|..];
    MeantGrows(io.Received(), stream[|io.Received()|..], cut);
    io.Faithful();
  }
}
