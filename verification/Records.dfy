/**
 * One direction of the record layer: the reference RecordStream, and the
 * firmware's in-place record builder.
 */
module Records {
  import opened Bytes
  import opened Crypto
  import opened Framing
  import opened Messages

  function Nonce(n: nat): Bytes { [0, 0, 0, 0] + U64(n) }

  function Aad(sid: Bytes, n: nat, len: nat): Bytes { sid + U64(n) + U16(len) }

  predicate Sealable(n: nat, plain: Bytes) { n < TWO64 && |plain| < 0x1_0000 }

  /** The payload of a Data frame. */
  function SealRecord(c: Primitives, key: Bytes, sid: Bytes, n: nat, plain: Bytes): Bytes {
    U64(n) + U16(|plain|) + c.seal(key, Nonce(n), Aad(sid, n, |plain|), plain)
  }

  datatype Opened = Rejected | Accepted(n: nat, plain: Bytes)

  /** What a receiver whose last sequence number is `last` makes of a Data payload. */
  function OpenRecord(c: Primitives, key: Bytes, sid: Bytes, last: int, payload: Bytes): Opened {
    if |payload| < 10 + TAG_LEN then Rejected
    else
      var n := FromBigEndian(payload[..8]);
      var len := ReadU16(payload[8], payload[9]);
      if |payload| != 10 + len + TAG_LEN || n <= last then Rejected
      else
        match c.open(key, Nonce(n), Aad(sid, n, len), payload[10..])
        case None => Rejected
        case Some(p) => Accepted(n, p)
  }

  /** Reading back the header of a packed record; what is left is the AEAD's verdict. */
  lemma PackedRecordOpens(c: Primitives, key: Bytes, sid: Bytes, n: nat, len: nat, ct: Bytes, last: int)
    requires n < TWO64 && len < 0x1_0000 && |ct| == len + TAG_LEN
    ensures OpenRecord(c, key, sid, last, U64(n) + U16(len) + ct) ==
            if n <= last then Rejected
            else
              match c.open(key, Nonce(n), Aad(sid, n, len), ct)
              case None => Rejected
              case Some(p) => Accepted(n, p)
  {
    var payload := U64(n) + U16(len) + ct;
    assert payload[..8] == U64(n) && payload[10..] == ct;
    assert payload[8] == len / 256 && payload[9] == len % 256;
    U64RoundTrip(n);
  }

  /** A sealed record opens to its plaintext at any receiver that has not seen its sequence number yet. */
  lemma SealedRecordOpens(c: Primitives, key: Bytes, sid: Bytes, n: nat, plain: Bytes, last: int)
    requires AeadLengths(c) && AeadOpens(c) && Sealable(n, plain)
    ensures OpenRecord(c, key, sid, last, SealRecord(c, key, sid, n, plain)) ==
            (if n > last then Accepted(n, plain) else Rejected)
  {
    var sealed := c.seal(key, Nonce(n), Aad(sid, n, |plain|), plain);
    assert |sealed| == |plain| + TAG_LEN;
    PackedRecordOpens(c, key, sid, n, |plain|, sealed, last);
    assert c.open(key, Nonce(n), Aad(sid, n, |plain|), sealed) == Some(plain);
  }

  /** Distinct sequence numbers give distinct GCM nonces. */
  lemma NonceInjective(m: nat, n: nat)
    requires m < TWO64 && n < TWO64 && Nonce(m) == Nonce(n)
    ensures m == n
  {
    assert Nonce(m)[4..] == U64(m) && Nonce(n)[4..] == U64(n);
    U64Injective(m, n);
  }

  /** The 12-byte nonce: four zero bytes, then the sequence number. */
  lemma NonceLayout(n: nat)
    requires n < TWO64
    ensures |Nonce(n)| == 12 && Nonce(n)[..4] == [0, 0, 0, 0] && FromBigEndian(Nonce(n)[4..]) == n
  {
    assert Nonce(n)[4..] == U64(n);
    U64RoundTrip(n);
  }

  /**
   * A Data payload: sequence number, length, sealed bytes. What is authenticated
   * with the plaintext is the session id and those ten header bytes, and a record
   * costs 29 bytes more than its plaintext on the wire.
   */
  lemma RecordLayout(c: Primitives, key: Bytes, sid: Bytes, n: nat, plain: Bytes)
    requires AeadLengths(c) && Sealable(n, plain)
    ensures var r := SealRecord(c, key, sid, n, plain);
            |r| == |plain| + 26 && |EncodeFrame(RecordFrame(c, key, sid, n, plain))| == |plain| + 29 &&
            FromBigEndian(r[..8]) == n && 256 * r[8] as int + r[9] as int == |plain| &&
            r[10..] == c.seal(key, [0, 0, 0, 0] + r[..8], sid + r[..10], plain)
  {
    var r := SealRecord(c, key, sid, n, plain);
    var sealed := c.seal(key, Nonce(n), Aad(sid, n, |plain|), plain);
    assert |sealed| == |plain| + TAG_LEN;
    U64RoundTrip(n);
    assert r[..8] == U64(n) && r[10..] == sealed && r[8..10] == U16(|plain|);
    assert r[8] == |plain| / 256 % 256 && r[9] == |plain| % 256;
    assert sid + r[..10] == Aad(sid, n, |plain|);
  }

  /**
   * Exactly what is accepted, byte by byte: a payload that is as long as it says,
   * numbered above the last, and opens under the nonce made of its first eight bytes
   * with the session id and its ten header bytes as associated data.
   */
  lemma OpensExactly(c: Primitives, key: Bytes, sid: Bytes, last: int, payload: Bytes)
    ensures OpenRecord(c, key, sid, last, payload).Accepted? <==>
            |payload| >= 26 && |payload| == 26 + 256 * payload[8] as int + payload[9] as int &&
            FromBigEndian(payload[..8]) > last &&
            c.open(key, [0, 0, 0, 0] + payload[..8], sid + payload[..10], payload[10..]).Some?
    ensures var r := OpenRecord(c, key, sid, last, payload);
            r.Accepted? ==>
              r.n == FromBigEndian(payload[..8]) &&
              c.open(key, [0, 0, 0, 0] + payload[..8], sid + payload[..10], payload[10..]) == Some(r.plain)
  {
    if |payload| >= 26 {
      HeaderBytesBack(sid, payload);
    }
  }

  /** Packing what was read from the header gives the nonce and the associated data. */
  lemma HeaderBytesBack(sid: Bytes, payload: Bytes)
    requires |payload| >= 10
    ensures var n, len := FromBigEndian(payload[..8]), ReadU16(payload[8], payload[9]);
            Nonce(n) == [0, 0, 0, 0] + payload[..8] && Aad(sid, n, len) == sid + payload[..10]
  {
    UnpackPack(payload[..8]);
    var len := ReadU16(payload[8], payload[9]);
    assert U16(len) == [payload[8], payload[9]];
    assert payload[..10] == payload[..8] + [payload[8], payload[9]];
  }

  function RecordFrame(c: Primitives, key: Bytes, sid: Bytes, n: nat, plain: Bytes): Frame {
    Frame(FRAME_DATA, SealRecord(c, key, sid, n, plain))
  }

  /** The Data frames of a session that sends these plaintexts. */
  function RecordFrames(c: Primitives, key: Bytes, sid: Bytes, plains: seq<Bytes>): (fs: seq<Frame>)
    ensures |fs| == |plains|
  {
    seq(|plains|, i requires 0 <= i < |plains| => RecordFrame(c, key, sid, i, plains[i]))
  }

  /** The bytes of those frames. */
  function Stream(c: Primitives, key: Bytes, sid: Bytes, plains: seq<Bytes>): Bytes {
    EncodeAll(RecordFrames(c, key, sid, plains))
  }

  const CLOSE: Frame := Frame(FRAME_CLOSE, [])

  lemma RecordFramesSnoc(c: Primitives, key: Bytes, sid: Bytes, plains: seq<Bytes>, n: nat)
    requires n < |plains|
    ensures Stream(c, key, sid, plains[..n + 1]) ==
            Stream(c, key, sid, plains[..n]) + EncodeFrame(RecordFrame(c, key, sid, n, plains[n]))
  {
    var f := RecordFrame(c, key, sid, n, plains[n]);
    assert RecordFrames(c, key, sid, plains[..n + 1]) == RecordFrames(c, key, sid, plains[..n]) + [f];
    EncodeAllConcat(RecordFrames(c, key, sid, plains[..n]), [f]);
    EncodeOne(f);
  }

  // ---------------------------------------------------------------- protocol.py

  class RecordStream {
    const c: Primitives
    const key: Bytes
    const sessionId: Bytes
    var sendSeq: nat
    var lastRecvSeq: int

    constructor (c: Primitives, key: Bytes, sessionId: Bytes)
      ensures this.c == c && this.key == key && this.sessionId == sessionId && sendSeq == 0 && lastRecvSeq == -1
    {
      this.c, this.key, this.sessionId := c, key, sessionId;
      sendSeq, lastRecvSeq := 0, -1;
    }

    /** seal: fails without changing state where struct.pack would raise. */
    method Seal(plain: Bytes) returns (r: Option<Bytes>)
      requires AeadLengths(c)
      modifies this`sendSeq
      ensures Sealable(old(sendSeq), plain) ==>
                r == Some(SealRecord(c, key, sessionId, old(sendSeq), plain)) && sendSeq == old(sendSeq) + 1
      ensures !Sealable(old(sendSeq), plain) ==> r == None && sendSeq == old(sendSeq)
    {
      var n := sendSeq;
      if n >= TWO64 || |plain| >= 0x1_0000 { return None; }
      var sealed := c.seal(key, Nonce(n), Aad(sessionId, n, |plain|), plain);
      assert |sealed| == |plain| + TAG_LEN;
      var ciphertext, tag := sealed[..|sealed| - TAG_LEN], sealed[|sealed| - TAG_LEN..];
      sendSeq := sendSeq + 1;
      assert ciphertext + tag == sealed;
      r := Some(U64(n) + U16(|ciphertext|) + ciphertext + tag);
      assert r.value == SealRecord(c, key, sessionId, n, plain);
    }

    /** open: the last sequence number moves only when the tag verifies. */
    method Open(payload: Bytes) returns (r: Option<Bytes>)
      modifies this`lastRecvSeq
      ensures match OpenRecord(c, key, sessionId, old(lastRecvSeq), payload)
              case Rejected => r == None && lastRecvSeq == old(lastRecvSeq)
              case Accepted(n, plain) => r == Some(plain) && lastRecvSeq == n && n > old(lastRecvSeq)
    {
      if |payload| < 10 + TAG_LEN { return None; }
      var n := FromBigEndian(payload[..8]);
      var len := ReadU16(payload[8], payload[9]);
      if |payload| != 10 + len + TAG_LEN { return None; }
      if n <= lastRecvSeq { return None; }
      var ciphertext, tag := payload[10..10 + len], payload[10 + len..];
      assert ciphertext + tag == payload[10..];
      r := c.open(key, Nonce(n), Aad(sessionId, n, len), ciphertext + tag);
      if r.Some? { lastRecvSeq := n; }
    }
  }

  // ---------------------------------------------------------------- pqc_session.c

  /** The firmware's shift loop: byte b is (seq >> (56 - 8 * b)) truncated to eight bits. */
  method PackU64(dst: array<byte>, at: nat, n: nat)
    requires at + 8 <= dst.Length && n < TWO64
    modifies dst
    ensures dst[..] == old(dst[..at]) + U64(n) + old(dst[at + 8..])
  {
    for b := 0 to 8
      invariant dst[at..at + b] == U64(n)[..b]
      invariant dst[..at] == old(dst[..at]) && dst[at + 8..] == old(dst[at + 8..])
    {
      PackedByte(n, 8, b);
      dst[at + b] := n / Pow256(7 - b) % 256;
      assert dst[at..at + b + 1] == dst[at..at + b] + [U64(n)[b]];
    }
    assert dst[..] == dst[..at] + dst[at..at + 8] + dst[at + 8..];
  }

  /** send_record up to the write: the record is built in place at the start of the frame buffer. */
  method BuildRecord(c: Primitives, key: Bytes, sid: Bytes, n: nat, plain: Bytes, frame: array<byte>) returns (len: nat)
    requires AeadLengths(c) && n < TWO64 && |sid| == 8 && |plain| + 10 + TAG_LEN <= frame.Length < 0x1_0000
    modifies frame
    ensures len == |plain| + 10 + TAG_LEN && frame[..len] == SealRecord(c, key, sid, n, plain)
  {
    var nonce := new byte[12](_ => 0);
    PackU64(nonce, 4, n);
    assert nonce[..] == Nonce(n) by { assert nonce[..4] == [0, 0, 0, 0]; assert nonce[12..] == []; }
    var aad := BuildAad(sid, n, |plain|);
    BuildHeader(frame, aad, n, |plain|);
    var sealed := c.seal(key, nonce[..], aad, plain);
    assert |sealed| == |plain| + TAG_LEN;
    CopyInto(frame, 10, sealed[..|plain|]);
    CopyInto(frame, 10 + |plain|, sealed[|plain|..]);
    len := 10 + |plain| + TAG_LEN;
    assert sealed[..|plain|] + sealed[|plain|..] == sealed;
    assert frame[..len] == U64(n) + U16(|plain|) + sealed;
  }

  /** Sequence number and length at the start of the frame buffer. */
  method BuildHeader(frame: array<byte>, aad: Bytes, n: nat, plainLen: nat)
    requires |aad| == 18 && aad[8..16] == U64(n) && 10 <= frame.Length && plainLen < 0x1_0000
    modifies frame
    ensures frame[..10] == U64(n) + U16(plainLen)
  {
    CopyInto(frame, 0, aad[8..16]);
    frame[8] := plainLen / 256;
    frame[9] := plainLen % 256;
  }

  method BuildAad(sid: Bytes, n: nat, plainLen: nat) returns (r: Bytes)
    requires |sid| == 8 && n < TWO64 && plainLen < 0x1_0000
    ensures r == Aad(sid, n, plainLen) && |r| == 18 && r[8..16] == U64(n)
  {
    var aad := new byte[18];
    CopyInto(aad, 0, sid);
    PackU64(aad, 8, n);
    aad[16] := plainLen / 256;
    aad[17] := plainLen % 256;
    assert aad[..8] == sid && aad[8..16] == U64(n) && aad[16..] == U16(plainLen);
    r := aad[..];
    assert r == aad[..8] + aad[8..16] + aad[16..];
  }
}
