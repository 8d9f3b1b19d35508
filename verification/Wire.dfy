/**
 Frames on the wire: a little-endian length, a flags byte, and a body that holds the protocol
 version, a tag and a payload, sealed when a key is configured. The authenticated cipher is abstract;
 only its two laws are used.
 */
module Wire {
  import opened Basics

  const MAX_FRAME_PAYLOAD: nat := 16384
  const PROTOCOL_VERSION: nat := 6
  const NONCE_LEN: nat := 24
  const TAG_LEN: nat := 16

  // -- Little-endian integers --

  function Pow256(n: nat): (p: nat)
    ensures p > 0
  {
    if n == 0 then 1 else 256 * Pow256(n - 1)
  }

  function ToLe(v: nat, width: nat): (b: Bytes)
    ensures |b| == width
  {
    if width == 0 then [] else [v % 256] + ToLe(v / 256, width - 1)
  }

  function FromLe(b: Bytes): nat {
    if b == [] then 0 else b[0] + 256 * FromLe(b[1..])
  }

  lemma {:induction false} FromLeBound(b: Bytes)
    ensures FromLe(b) < Pow256(|b|)
  {
    if b != [] {
      FromLeBound(b[1..]);
    }
  }

  /** Every value that fits is read back. */
  lemma {:induction false} LeRoundTrip(v: nat, width: nat)
    requires v < Pow256(width)
    ensures FromLe(ToLe(v, width)) == v
  {
    if width > 0 {
      LeRoundTrip(v / 256, width - 1);
      assert ToLe(v, width)[1..] == ToLe(v / 256, width - 1);
    }
  }

  /** Every byte string is the encoding of what it is read as. */
  lemma {:induction false} LeInverse(b: Bytes)
    ensures ToLe(FromLe(b), |b|) == b
  {
    if b != [] {
      LeInverse(b[1..]);
      assert FromLe(b) / 256 == FromLe(b[1..]) && FromLe(b) % 256 == b[0];
      assert b == [b[0]] + b[1..];
    }
  }

  // -- The cipher --

  /** An authenticated cipher under one key: `seal` takes a nonce, a plaintext and the associated
      data; `open` takes sealed bytes and the associated data. */
  datatype Aead = Aead(seal: (Bytes, Bytes, Bytes) -> Bytes, open: (Bytes, Bytes) -> Option<Bytes>)

  ghost predicate Lawful(c: Aead) {
    && (forall nonce, plain, aad | |nonce| == NONCE_LEN ::
          && |c.seal(nonce, plain, aad)| == NONCE_LEN + |plain| + TAG_LEN
          && c.open(c.seal(nonce, plain, aad), aad) == Some(plain))
    && (forall sealed, aad | c.open(sealed, aad).Some? ::
          |sealed| == NONCE_LEN + |c.open(sealed, aad).value| + TAG_LEN)
  }

  type SessionKey = Option<Aead>

  ghost predicate LawfulKey(key: SessionKey) {
    key.Some? ==> Lawful(key.value)
  }

  /** A cipher with both laws: the plaintext between a nonce and a blank authenticator. */
  function Toy(): Aead {
    Aead((nonce, plain, aad) => nonce + plain + seq(TAG_LEN, _ => 0),
         (sealed, aad) => if |sealed| < NONCE_LEN + TAG_LEN then None
                          else Some(sealed[NONCE_LEN..|sealed| - TAG_LEN]))
  }

  lemma LawfulExists()
    ensures Lawful(Toy())
  {
    var c := Toy();
    forall nonce: Bytes, plain: Bytes, aad: Bytes | |nonce| == NONCE_LEN
      ensures |c.seal(nonce, plain, aad)| == NONCE_LEN + |plain| + TAG_LEN
      ensures c.open(c.seal(nonce, plain, aad), aad) == Some(plain)
    {
      var sealed := c.seal(nonce, plain, aad);
      assert sealed == nonce + plain + seq(TAG_LEN, _ => 0);
      assert sealed[NONCE_LEN..|sealed| - TAG_LEN] == plain;
    }
  }

  // -- Frames --

  function Flag(key: SessionKey): Byte {
    if key.Some? then 1 else 0
  }

  function Overhead(key: SessionKey): nat {
    if key.Some? then NONCE_LEN + TAG_LEN else 0
  }

  function Inner(tag: Byte, payload: Bytes): (inner: Bytes)
    ensures |inner| == 3 + |payload|
  {
    ToLe(PROTOCOL_VERSION, 2) + [tag] + payload
  }

  /** The body's plaintext. */
  function Opened(body: Bytes, header: Bytes, key: SessionKey): Option<Bytes> {
    if key.None? then Some(body) else key.value.open(body, header)
  }

  /** Whether a declared length and flags byte may begin a frame. */
  predicate Declares(total: int, flags: Byte, key: SessionKey) {
    && flags == Flag(key)
    && Overhead(key) + 3 <= total - 1 <= Overhead(key) + 3 + MAX_FRAME_PAYLOAD
  }

  /** The bytes are exactly one frame that carries the tag and payload. */
  predicate IsFrame(frame: Bytes, key: SessionKey, tag: Byte, payload: Bytes) {
    && |frame| >= 5
    && FromLe(frame[..4]) == |frame| - 4
    && Declares(|frame| - 4, frame[4], key)
    && Opened(frame[5..], frame[..5], key) == Some(Inner(tag, payload))
  }

  datatype Decoded = NeedMore | Malformed | Frame(tag: Byte, payload: Bytes, consumed: nat)

  predicate ValidVersion(inner: Bytes) {
    |inner| >= 3 && FromLe(inner[..2]) == PROTOCOL_VERSION
  }

  /** Decodes the frame at the start of the data into a buffer of `room` bytes. */
  function DecodeFrame(data: Bytes, key: SessionKey, room: nat): Decoded {
    if |data| < 5 then NeedMore
    else
      var total := FromLe(data[..4]);
      if !Declares(total, data[4], key) then Malformed
      else if |data| < 4 + total then NeedMore
      else
        var plain := Opened(data[5..4 + total], data[..5], key);
        if plain.None? || !ValidVersion(plain.value) || |plain.value| - 3 > room then Malformed
        else Frame(plain.value[2], plain.value[3..], 4 + total)
  }

  lemma InnerParts(tag: Byte, payload: Bytes)
    ensures ValidVersion(Inner(tag, payload))
    ensures Inner(tag, payload)[2] == tag && Inner(tag, payload)[3..] == payload
  {
    LeRoundTrip(PROTOCOL_VERSION, 2);
    assert Inner(tag, payload)[..2] == ToLe(PROTOCOL_VERSION, 2);
  }

  lemma InnerWhole(inner: Bytes)
    requires ValidVersion(inner)
    ensures inner == Inner(inner[2], inner[3..])
  {
    LeInverse(inner[..2]);
    assert inner == inner[..2] + [inner[2]] + inner[3..];
  }

  /** A frame is decoded if and only if the data begins with one that fits the buffer. */
  lemma DecodeIff(data: Bytes, key: SessionKey, room: nat, tag: Byte, payload: Bytes, n: nat)
    ensures DecodeFrame(data, key, room) == Frame(tag, payload, n) <==>
            n <= |data| && IsFrame(data[..n], key, tag, payload) && |payload| <= room
  {
    if DecodeFrame(data, key, room) == Frame(tag, payload, n) {
      var frame := data[..n];
      assert frame[..4] == data[..4] && frame[5..] == data[5..n] && frame[..5] == data[..5];
      InnerWhole(Opened(data[5..n], data[..5], key).value);
    }
    if n <= |data| && IsFrame(data[..n], key, tag, payload) && |payload| <= room {
      var frame := data[..n];
      assert frame[..4] == data[..4] && frame[5..] == data[5..n] && frame[..5] == data[..5];
      InnerParts(tag, payload);
    }
  }

  /** Once enough has arrived to decide, what follows makes no difference. */
  lemma DecodeStable(data: Bytes, more: Bytes, key: SessionKey, room: nat)
    requires !DecodeFrame(data, key, room).NeedMore?
    ensures DecodeFrame(data + more, key, room) == DecodeFrame(data, key, room)
  {
    var all := data + more;
    assert all[..4] == data[..4] && all[..5] == data[..5];
    var total := FromLe(data[..4]);
    if |data| >= 4 + total && total >= 1 {
      assert all[5..4 + total] == data[5..4 + total];
    }
  }

  /** A frame that is still incomplete is shorter than the longest frame. */
  lemma IncompleteIsShort(data: Bytes, key: SessionKey, room: nat)
    requires DecodeFrame(data, key, room).NeedMore?
    ensures |data| < 16432
  {
  }

  // -- Writing --

  function Header(key: SessionKey, payload: Bytes): (h: Bytes)
    ensures |h| == 5
  {
    ToLe(1 + Overhead(key) + 3 + |payload|, 4) + [Flag(key)]
  }

  function FrameBytes(tag: Byte, payload: Bytes, key: SessionKey, nonce: Bytes): Bytes {
    var inner := Inner(tag, payload);
    var header := Header(key, payload);
    header + if key.None? then inner else key.value.seal(nonce, inner, header)
  }

  /** The writer produces a frame. */
  lemma WritesFrame(tag: Byte, payload: Bytes, key: SessionKey, nonce: Bytes)
    requires LawfulKey(key) && |nonce| == NONCE_LEN && |payload| <= MAX_FRAME_PAYLOAD
    ensures IsFrame(FrameBytes(tag, payload, key, nonce), key, tag, payload)
  {
    var frame := FrameBytes(tag, payload, key, nonce);
    var header := Header(key, payload);
    var total := 1 + Overhead(key) + 3 + |payload|;
    assert Pow256(4) == 0x1_0000_0000;
    LeRoundTrip(total, 4);
    assert frame[..5] == header && frame[..4] == ToLe(total, 4);
    assert frame[5..] == if key.None? then Inner(tag, payload) else key.value.seal(nonce, Inner(tag, payload), header);
  }

  /** What is written is read back, whatever follows it. */
  lemma FrameRoundTrip(tag: Byte, payload: Bytes, key: SessionKey, nonce: Bytes, rest: Bytes, room: nat)
    requires LawfulKey(key) && |nonce| == NONCE_LEN && |payload| <= MAX_FRAME_PAYLOAD && |payload| <= room
    ensures
      var frame := FrameBytes(tag, payload, key, nonce);
      DecodeFrame(frame + rest, key, room) == Frame(tag, payload, |frame|)
  {
    var frame := FrameBytes(tag, payload, key, nonce);
    WritesFrame(tag, payload, key, nonce);
    assert (frame + rest)[..|frame|] == frame;
    DecodeIff(frame + rest, key, room, tag, payload, |frame|);
  }

  /** Under a lawful key no decoded payload exceeds the limit. */
  lemma DecodedIsBounded(data: Bytes, key: SessionKey, room: nat)
    requires LawfulKey(key) && DecodeFrame(data, key, room).Frame?
    ensures |DecodeFrame(data, key, room).payload| <= MAX_FRAME_PAYLOAD
  {
  }
}
