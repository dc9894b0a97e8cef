/**
 * The ESP32 client: the same handshake over three shared static buffers, with the
 * ServerHello fields used as offsets into the frame buffer.
 */
module Firmware {
  import opened Bytes
  import opened Crypto
  import opened KeySchedule
  import opened Messages
  import opened Framing
  import opened Records
  import opened Client

  const CT: nat := 1088
  const EK: nat := 1184
  const CLIENT_HELLO_LEN: nat := 2 + DEVICE_ID_LEN + KEY_ID_LEN + NONCE_LEN + CT + MAC_LEN
  const SERVER_HELLO_LEN_FS: nat := SERVER_HELLO_LEN + EK
  const CLIENT_KEY_EXCHANGE_LEN: nat := CT + MAC_LEN

  const SUITE_MLKEM768: byte := 0x01
  const SUITE_MLKEM768_FS: byte := 0x11

  class PqcSession {
    var sessionId: Bytes
    var c2s: Bytes
    var sendSeq: nat
    var forwardSecrecy: bool
    var handshakeBytes: nat

    constructor ()
      ensures sendSeq == 0
    {
      sessionId, c2s, sendSeq, forwardSecrecy, handshakeBytes := [], [], 0, false, 0;
    }
  }

  /** One AES-GCM encryption the device performed. */
  datatype Encrypted = Encrypted(key: Bytes, nonce: Bytes)

  class Device {
    const c: Primitives
    const deviceId: Bytes
    const psk: Bytes
    const serverPublicKey: Bytes
    const serverKeyId: Bytes
    const hello: array<byte>   // s_hello
    const frame: array<byte>   // s_frame
    const outbuf: array<byte>  // s_out
    ghost var encrypted: seq<Encrypted>

    /** The compiled-in configuration, pinned id included, and three distinct buffers. */
    ghost predicate Valid()
      reads this
    {
      KemLengths(c) && AeadLengths(c) &&
      |deviceId| == DEVICE_ID_LEN && |psk| == PSK_LEN && |serverPublicKey| == EK &&
      serverKeyId == PinnedId(c, serverPublicKey) &&
      hello.Length == CLIENT_HELLO_LEN && frame.Length == SERVER_HELLO_LEN_FS &&
      outbuf.Length == CLIENT_KEY_EXCHANGE_LEN &&
      hello != frame && hello != outbuf && frame != outbuf
    }

    constructor (c: Primitives, deviceId: Bytes, psk: Bytes, serverPublicKey: Bytes)
      requires KemLengths(c) && AeadLengths(c)
      requires |deviceId| == DEVICE_ID_LEN && |psk| == PSK_LEN && |serverPublicKey| == EK
      ensures Valid() && fresh(hello) && fresh(frame) && fresh(outbuf) && encrypted == []
      ensures this.c == c && this.deviceId == deviceId && this.psk == psk && this.serverPublicKey == serverPublicKey
    {
      this.c, this.deviceId, this.psk, this.serverPublicKey := c, deviceId, psk, serverPublicKey;
      serverKeyId := PinnedId(c, serverPublicKey);
      hello, frame := new byte[CLIENT_HELLO_LEN], new byte[SERVER_HELLO_LEN_FS];
      outbuf := new byte[CLIENT_KEY_EXCHANGE_LEN];
      encrypted := [];
    }

    function SetupFor(suite: byte, nonce: Bytes, coins: Bytes, coinsEph: Bytes): Setup {
      Setup(suite, deviceId, psk, serverPublicKey, nonce, coins, coinsEph)
    }

    /** ClientHello, written field by field into s_hello; the MAC goes right behind what it covers. */
    method BuildHello(suite: byte, nonce: Bytes, kemCt: Bytes)
      requires Valid() && |nonce| == NONCE_LEN && |kemCt| == CT
      modifies hello
      ensures hello[..] == Build(c, suite, deviceId, serverKeyId, nonce, kemCt, psk)
    {
      var i := 0;
      hello[i] := PROTOCOL_VERSION; i := i + 1;
      hello[i] := suite; i := i + 1;
      ghost var body := [PROTOCOL_VERSION, suite];
      assert hello[..i] == body;
      i := Append(hello, i, deviceId, body); body := body + deviceId;
      i := Append(hello, i, serverKeyId, body); body := body + serverKeyId;
      i := Append(hello, i, nonce, body); body := body + nonce;
      i := Append(hello, i, kemCt, body); body := body + kemCt;
      var mac := c.hmac(psk, LABEL_HELLO + hello[..i]);
      i := Append(hello, i, mac, body); body := body + mac;
      assert hello[..i] == hello[..];
    }

    /** The stage-1 keys; in mode A all four. */
    method Stage1(nonce: Bytes, serverNonce: Bytes, ss: Bytes, th2: Bytes, fs: bool) returns (keys: SessionKeys)
      requires Valid() && |nonce| == 32 && |serverNonce| == 32 && |ss| == 32 && |th2| == 32
      ensures ServerConfirm(c, fs, ss, psk, nonce, serverNonce, th2) == Some(keys.srvConfirm)
      ensures !fs ==> DeriveKeys(c, ss, psk, nonce, serverNonce, th2) == Some(keys)
    {
      var salt := Joined(nonce, serverNonce);
      var ikm1 := Joined(ss, psk);
      var prk1 := Extract(c, salt, ikm1);
      var srv := DeriveKey(c, prk1, LABEL_SRV_CONFIRM, th2);
      keys := SessionKeys(srv, [], [], []);
      if !fs {
        var cli := DeriveKey(c, prk1, LABEL_CLI_CONFIRM, th2);
        var c2s := DeriveKey(c, prk1, LABEL_C2S, th2);
        var s2c := DeriveKey(c, prk1, LABEL_S2C, th2);
        keys := SessionKeys(srv, cli, c2s, s2c);
      }
    }

    /** The stage-2 keys of mode B. */
    method Stage2(nonce: Bytes, serverNonce: Bytes, ss: Bytes, sse: Bytes, th3: Bytes) returns (keys: SessionKeys)
      requires Valid() && |nonce| == 32 && |serverNonce| == 32 && |ss| == 32 && |sse| == 32 && |th3| == 32
      ensures keys == DeriveStage2(c, ss, sse, psk, nonce, serverNonce, th3)
    {
      var salt := Joined(nonce, serverNonce);
      var both := Joined(ss, sse);
      var ikm2 := Joined(both, psk);
      var prk2 := Extract(c, salt, ikm2);
      var cli := DeriveKey(c, prk2, LABEL_CLI_CONFIRM, th3);
      var c2s := DeriveKey(c, prk2, LABEL_C2S, th3);
      var s2c := DeriveKey(c, prk2, LABEL_S2C, th3);
      keys := SessionKeys([], cli, c2s, s2c);
    }

    /** The ServerHello payload sitting at the start of s_frame, as the reference client splits it. */
    ghost function Received(fs: bool): Offer
      requires Valid()
      reads this, frame
    {
      var ekLen := if fs then EK else 0;
      Offer(frame[..32], frame[32..40], frame[40..40 + ekLen], frame[40 + ekLen..72 + ekLen])
    }

    /** From the server MAC check to the answer in s_out, reading every ServerHello field out of s_frame. */
    method RespondInPlace(nonce: Bytes, ss: Bytes, coinsEph: Bytes, suite: byte)
      returns (ok: bool, len: nat, c2s: Bytes)
      requires Valid() && |nonce| == 32 && |ss| == 32
      modifies outbuf
      ensures len <= outbuf.Length
      ensures var fs := suite == SUITE_MLKEM768_FS;
              match Respond(c, SetupFor(suite, nonce, [], coinsEph), hello[..], ss, Received(fs), fs)
              case Answer(fin, sid, key) => ok && outbuf[..len] == fin && c2s == key && sid == frame[32..40]
              case _ => !ok
    {
      var fs := suite == SUITE_MLKEM768_FS;
      var macAt := NONCE_LEN + SESSION_ID_LEN + (if fs then EK else 0);
      ok, len, c2s := false, 0, [];
      ghost var o := Received(fs);
      var th2 := HashTranscript(fs);
      var keys := Stage1(nonce, frame[..NONCE_LEN], ss, th2, fs);
      var expected := c.hmac(keys.srvConfirm, th2);
      var same := CtEqual(expected, frame[macAt..macAt + MAC_LEN]);
      if !same { return; }
      var transcript := th2;
      len := MAC_LEN;
      if fs {
        var e := c.encaps(frame[40..40 + EK], coinsEph);
        if e.Refused? { return; }
        CopyInto(outbuf, 0, e.ct);
        assert outbuf[..CT] == e.ct;
        transcript := c.sha256(th2 + outbuf[..CT]);
        keys := Stage2(nonce, frame[..NONCE_LEN], ss, e.ss, transcript);
        len := CLIENT_KEY_EXCHANGE_LEN;
      }
      ghost var tail := outbuf[..len - MAC_LEN];
      var mac := c.hmac(keys.cliConfirm, transcript + frame[macAt..macAt + MAC_LEN]);
      CopyInto(outbuf, len - MAC_LEN, mac);
      assert outbuf[..len] == tail + mac;
      ok, c2s := true, keys.c2s;
    }

    /** TH2, fed to the hash piece by piece. */
    method HashTranscript(fs: bool) returns (th2: Bytes32)
      requires Valid()
      ensures var o := Received(fs); th2 == Transcript2(c, hello[..], o.sn, o.sid, o.ek)
    {
      var fed := hello[..] + frame[..NONCE_LEN];
      fed := fed + frame[NONCE_LEN..NONCE_LEN + SESSION_ID_LEN];
      if fs { fed := fed + frame[40..40 + EK]; }
      else { assert fed == fed + frame[40..40]; }
      th2 := c.sha256(fed);
    }

    // -------------------------------------------------------------- handshake

    /** The socket and the session after a handshake. */
    ghost predicate Outcome(sock: Socket, session: PqcSession, out0: Bytes, writable0: nat, h: Handshake, ok: bool,
                            fs: bool)
      reads sock, session
    {
      match h
      case Failed(sent) => !ok && sock.outgoing == out0 + sent
      case Established(sent, rest, sid, c2s, wire) =>
        ok && sock.outgoing == out0 + sent && sock.incoming == rest &&
        |sent| <= writable0 && sock.writable == writable0 - |sent| &&
        session.sessionId == sid && session.c2s == c2s && session.sendSeq == 0 &&
        session.forwardSecrecy == fs && session.handshakeBytes == wire
    }

    /** From reading ServerHello into s_frame to sending s_out. */
    method AwaitReplyInPlace(sock: Socket, session: PqcSession, suite: byte, nonce: Bytes, ss: Bytes, coins: Bytes,
                             coinsEph: Bytes, ghost out0: Bytes, ghost writable0: nat) returns (ok: bool)
      requires Valid() && |nonce| == 32 && |ss| == 32 && (suite == SUITE_MLKEM768 || suite == SUITE_MLKEM768_FS)
      requires var m1 := EncodeFrame(Frame(FRAME_CLIENT_HELLO, hello[..]));
               |m1| <= writable0 && sock.outgoing == out0 + m1 && sock.writable == writable0 - |m1|
      modifies sock, frame, outbuf, session
      ensures Outcome(sock, session, out0, writable0,
                      AwaitReply(c, SetupFor(suite, nonce, coins, coinsEph), old(hello[..]), ss,
                                 old(sock.incoming), writable0),
                      ok, suite == SUITE_MLKEM768_FS)
    {
      ghost var m1 := EncodeFrame(Frame(FRAME_CLIENT_HELLO, hello[..]));
      var fs := suite == SUITE_MLKEM768_FS;
      SmallReaderAgrees(sock.incoming, MAX_FRAME, frame.Length);
      var read, ftype, len := sock.ReadFrameInto(frame);
      if !read { return false; }
      var expectedLen := if fs then SERVER_HELLO_LEN_FS else SERVER_HELLO_LEN;
      if ftype != FRAME_SERVER_HELLO || len != expectedLen { return false; }
      SplitInPlace(fs, len, suite);
      SameRespond(suite, nonce, coins, coinsEph, hello[..], ss, Received(fs));
      var accepted, finLen, c2s := RespondInPlace(nonce, ss, coinsEph, suite);
      if !accepted { return false; }
      ok := SendFinished(sock, session, finLen, c2s, fs, expectedLen, out0, m1, writable0);
    }

    method SendFinished(sock: Socket, session: PqcSession, finLen: nat, c2s: Bytes, fs: bool, expectedLen: nat,
                        ghost out0: Bytes, ghost m1: Bytes, ghost writable0: nat) returns (ok: bool)
      requires Valid() && finLen <= outbuf.Length
      requires |m1| <= writable0 && sock.outgoing == out0 + m1 && sock.writable == writable0 - |m1|
      modifies sock, session
      ensures var f3 := Frame(FRAME_CLIENT_FINISHED, outbuf[..finLen]);
              Outcome(sock, session, out0, writable0,
                      if Sent(m1, f3, writable0) then
                        Established(m1 + EncodeFrame(f3), old(sock.incoming), frame[32..40], c2s,
                                    3 + CLIENT_HELLO_LEN + 3 + expectedLen + 3 + finLen)
                      else Failed(Sending(m1, f3, writable0)),
                      ok, fs)
    {
      ok := sock.WriteFrameFrom(FRAME_CLIENT_FINISHED, outbuf, finLen);
      SendingAfter(out0, m1, Frame(FRAME_CLIENT_FINISHED, outbuf[..finLen]), writable0);
      if !ok { return; }
      session.sessionId := frame[NONCE_LEN..NONCE_LEN + SESSION_ID_LEN];
      session.c2s := c2s;
      session.sendSeq := 0;
      session.forwardSecrecy := fs;
      session.handshakeBytes := 3 + CLIENT_HELLO_LEN + 3 + expectedLen + 3 + finLen;
    }

    /** The offsets into s_frame are where the reference client slices. */
    lemma SplitInPlace(fs: bool, len: nat, suite: byte)
      requires Valid() && len == (if fs then SERVER_HELLO_LEN_FS else SERVER_HELLO_LEN)
      requires suite == (if fs then SUITE_MLKEM768_FS else SUITE_MLKEM768)
      ensures Params(suite).Some? && Params(suite).value.fs == fs && len == ServerHelloLen(Params(suite).value)
      ensures Split(Params(suite).value, frame[..len]) == Received(fs)
    {
      var o, p := Received(fs), frame[..len];
      var ekLen := if fs then EK else 0;
      assert p[..32] == o.sn && p[32..40] == o.sid && p[40..40 + ekLen] == o.ek && p[40 + ekLen..] == o.mac;
    }

    /** The static coins play no part after ClientHello. */
    lemma SameRespond(suite: byte, nonce: Bytes, coins: Bytes, coinsEph: Bytes, h: Bytes, ss: Bytes, o: Offer)
      ensures forall fs :: Respond(c, SetupFor(suite, nonce, [], coinsEph), h, ss, o, fs) ==
                           Respond(c, SetupFor(suite, nonce, coins, coinsEph), h, ss, o, fs)
    {
    }

    /**
     * handshake: for the two suites the firmware speaks it sends the same bytes,
     * accepts the same ServerHellos and ends with the same session as the
     * reference client does from the same inputs.
     */
    method Handshake(sock: Socket, session: PqcSession, suite: byte, nonce: Bytes, coins: Bytes, coinsEph: Bytes)
      returns (ok: bool)
      requires Valid() && |nonce| == NONCE_LEN && (suite == SUITE_MLKEM768 || suite == SUITE_MLKEM768_FS)
      modifies sock, hello, frame, outbuf, session
      ensures Outcome(sock, session, old(sock.outgoing), old(sock.writable),
                      Shake(c, SetupFor(suite, nonce, coins, coinsEph), old(sock.incoming), old(sock.writable)),
                      ok, suite == SUITE_MLKEM768_FS)
    {
      var e := c.encaps(serverPublicKey, coins);
      if e.Refused? { return false; }
      BuildHello(suite, nonce, e.ct);
      ShakeHello(c, SetupFor(suite, nonce, coins, coinsEph), sock.incoming, sock.writable);
      ok := sock.WriteFrameFrom(FRAME_CLIENT_HELLO, hello, CLIENT_HELLO_LEN);
      assert hello[..CLIENT_HELLO_LEN] == hello[..];
      if !ok { return; }
      ok := AwaitReplyInPlace(sock, session, suite, nonce, e.ss, coins, coinsEph, old(sock.outgoing),
          old(sock.writable));
    }

    // -------------------------------------------------------------- records

    /**
     * send_record: a record that does not fit is refused, otherwise it is sealed in
     * s_frame and written. `gcm` is whether the AES-GCM calls succeed; a failed one
     * counts as having used its nonce. send_seq moves only if the write succeeds.
     */
    method SendRecord(sock: Socket, session: PqcSession, plain: Bytes, gcm: bool) returns (ok: bool)
      requires Valid() && session.sendSeq < TWO64 && |session.sessionId| == 8
      modifies sock, frame, session`sendSeq, this`encrypted
      ensures sock.incoming == old(sock.incoming)
      ensures |plain| + 10 + TAG_LEN > frame.Length ==> !ok && encrypted == old(encrypted)
      ensures |plain| + 10 + TAG_LEN <= frame.Length ==>
                encrypted == old(encrypted) + [Encrypted(session.c2s, Nonce(old(session.sendSeq)))]
      ensures |plain| + 10 + TAG_LEN > frame.Length || !gcm ==>
                !ok && sock.outgoing == old(sock.outgoing) && sock.writable == old(sock.writable)
      ensures |plain| + 10 + TAG_LEN <= frame.Length && gcm ==>
                var f := EncodeFrame(RecordFrame(c, session.c2s, session.sessionId, old(session.sendSeq), plain));
                ok == (|f| <= old(sock.writable)) && sock.outgoing == old(sock.outgoing) + Cut(f, old(sock.writable)) &&
                (ok ==> sock.writable == old(sock.writable) - |f|)
      ensures session.sendSeq == old(session.sendSeq) + (if ok then 1 else 0)
    {
      if |plain| + 10 + TAG_LEN > frame.Length { return false; }
      var n := session.sendSeq;
      encrypted := encrypted + [Encrypted(session.c2s, Nonce(n))];
      if !gcm { return false; }
      var len := BuildRecord(c, session.c2s, session.sessionId, n, plain, frame);
      ok := sock.WriteFrameFrom(FRAME_DATA, frame, len);
      if ok { session.sendSeq := session.sendSeq + 1; }
    }

    // -------------------------------------------------------------- a whole session

    /** Record n of a session whose encryptable plaintexts are ps, after `stream` has gone out. */
    method SendNth(sock: Socket, session: PqcSession, plain: Bytes, gcm: bool, n: nat, ghost ps: seq<Bytes>,
                   ghost stream: Bytes, ghost out0: Bytes, ghost writable0: nat)
      returns (ok: bool, ghost next: Bytes)
      requires Valid() && session.sendSeq == n < TWO64 && |session.sessionId| == 8 &&
               |plain| + 10 + TAG_LEN <= frame.Length
      requires n <= |ps| && (gcm <==> n < |ps|) && (n < |ps| ==> ps[n] == plain)
      requires stream == Stream(c, session.c2s, session.sessionId, ps[..n]) && |stream| <= writable0
      requires sock.outgoing == out0 + stream && sock.writable == writable0 - |stream|
      modifies sock, frame, session`sendSeq, this`encrypted
      ensures sock.incoming == old(sock.incoming)
      ensures encrypted == old(encrypted) + [Encrypted(session.c2s, Nonce(n))]
      ensures ok ==> n < |ps| && next == Stream(c, session.c2s, session.sessionId, ps[..n + 1]) && |next| <= writable0
      ensures ok ==> sock.outgoing == out0 + next && sock.writable == writable0 - |next| && session.sendSeq == n + 1
      ensures !ok ==> var all := Stream(c, session.c2s, session.sessionId, ps);
                      sock.outgoing == out0 + Cut(all, writable0) && (n == |ps| || |all| > writable0)
    {
      next := stream;
      if gcm {
        ghost var f := EncodeFrame(RecordFrame(c, session.c2s, session.sessionId, n, plain));
        StreamNext(c, session.c2s, session.sessionId, ps, n, out0, stream, f, writable0);
        next := stream + f;
      } else {
        assert ps[..n] == ps;
      }
      ok := SendRecord(sock, session, plain, gcm);
    }

    /** The records of a session, stopping at the first that cannot be encrypted or written. */
    method SendRecords(sock: Socket, session: PqcSession, plains: seq<Bytes>, gcm: nat -> bool)
      returns (ok: bool, ghost count: nat)
      requires Valid() && session.sendSeq == 0 && |session.sessionId| == 8 && |plains| < 0x8000_0000
      requires forall p <- plains :: |p| + 10 + TAG_LEN <= frame.Length
      modifies sock, frame, session`sendSeq, this`encrypted
      ensures sock.incoming == old(sock.incoming)
      ensures var stream := Stream(c, session.c2s, session.sessionId, plains[..Encryptable(gcm, |plains|)]);
              ok == (Encryptable(gcm, |plains|) == |plains| && |stream| <= old(sock.writable)) &&
              sock.outgoing == old(sock.outgoing) + Cut(stream, old(sock.writable)) &&
              (ok ==> sock.writable == old(sock.writable) - |stream|)
      ensures count <= |plains| && (ok ==> count == |plains|)
      ensures encrypted == old(encrypted) + NonceLog(session.c2s, count)
    {
      ghost var out0, writable0, enc0 := sock.outgoing, sock.writable, encrypted;
      ghost var key, sid, ps := session.c2s, session.sessionId, plains[..Encryptable(gcm, |plains|)];
      ghost var stream: Bytes := [];
      assert ps[..0] == [];
      for n := 0 to |plains|
        invariant n <= |ps| && session.sendSeq == n && sock.incoming == old(sock.incoming)
        invariant stream == Stream(c, key, sid, ps[..n]) && |stream| <= writable0
        invariant sock.outgoing == out0 + stream && sock.writable == writable0 - |stream|
        invariant encrypted == enc0 + NonceLog(key, n)
      {
        EncryptedStops(gcm, |plains|, n);
        ghost var next;
        ok, next := SendNth(sock, session, plains[n], gcm(n), n, ps, stream, out0, writable0);
        NonceLogNext(enc0, key, n);
        if !ok { return ok, n + 1; }
        stream := next;
      }
      assert ps[..|plains|] == ps;
      ok, count := true, |plains|;
    }

    method SendRecordsAndClose(sock: Socket, session: PqcSession, plains: seq<Bytes>, gcm: nat -> bool)
      returns (ok: bool, ghost count: nat)
      requires Valid() && session.sendSeq == 0 && |session.sessionId| == 8 && |plains| < 0x8000_0000
      requires forall p <- plains :: |p| + 10 + TAG_LEN <= frame.Length
      modifies sock, frame, session`sendSeq, this`encrypted
      ensures ok == (Encryptable(gcm, |plains|) == |plains| &&
                     |Stream(c, session.c2s, session.sessionId, plains)| <= old(sock.writable))
      ensures sock.outgoing ==
              old(sock.outgoing) +
              Cut(SessionStream(c, session.c2s, session.sessionId, plains, gcm), old(sock.writable))
      ensures count <= |plains| && (ok ==> count == |plains|)
      ensures encrypted == old(encrypted) + NonceLog(session.c2s, count)
    {
      ghost var ps := plains[..Encryptable(gcm, |plains|)];
      assert Encryptable(gcm, |plains|) == |plains| ==> ps == plains;
      CutTwice(sock.outgoing, Stream(c, session.c2s, session.sessionId, ps), EncodeFrame(CLOSE), sock.writable);
      assert Stream(c, session.c2s, session.sessionId, ps) + [] == Stream(c, session.c2s, session.sessionId, ps);
      ok, count := SendRecords(sock, session, plains, gcm);
      if !ok { return; }
      var empty := new byte[0];
      assert empty[..0] == [];
      var closed := sock.WriteFrameFrom(FRAME_CLOSE, empty, 0);
    }

    method FinishSession(sock: Socket, session: PqcSession, plains: seq<Bytes>, gcm: nat -> bool, ghost h: Handshake,
                         ghost out0: Bytes, ghost writable0: nat, ghost fs: bool)
      returns (ok: bool, ghost count: nat)
      requires Valid() && h.Established? && |h.sid| == 8 && Outcome(sock, session, out0, writable0, h, true, fs)
      requires |plains| < 0x8000_0000 && forall p <- plains :: |p| + 10 + TAG_LEN <= frame.Length
      modifies sock, frame, session`sendSeq, this`encrypted
      ensures Ended(sock, plains, gcm, h, out0, writable0, ok) && count <= |plains| && (ok ==> count == |plains|)
      ensures encrypted == old(encrypted) + NonceLog(h.c2s, count)
    {
      CutTwice(out0, h.sent, SessionStream(c, h.c2s, h.sid, plains, gcm), writable0);
      ok, count := SendRecordsAndClose(sock, session, plains, gcm);
    }

    /** What a finished session has put on the wire: as much of one fixed stream as the peer took. */
    ghost predicate Ended(sock: Socket, plains: seq<Bytes>, gcm: nat -> bool, h: Handshake, out0: Bytes, writable0: nat,
                          ok: bool)
      requires h.Established?
      reads sock
    {
      ok == (Encryptable(gcm, |plains|) == |plains| && |h.sent| + |Stream(c, h.c2s, h.sid, plains)| <= writable0) &&
      sock.outgoing == out0 + Cut(h.sent + SessionStream(c, h.c2s, h.sid, plains, gcm), writable0)
    }

    /**
     * pqc_session_run on a connected socket: whatever the peer takes is a prefix of
     * one stream of ClientHello, ClientFinished, the records and Close. The session
     * ends at the first record that cannot be encrypted or written, so every nonce
     * is used once although send_seq did not move.
     */
    method SessionRun(sock: Socket, suite: byte, nonce: Bytes, coins: Bytes, coinsEph: Bytes, plains: seq<Bytes>,
                      gcm: nat -> bool) returns (ok: bool, ghost count: nat)
      requires Valid() && |nonce| == NONCE_LEN && (suite == SUITE_MLKEM768 || suite == SUITE_MLKEM768_FS)
      requires |plains| < 0x8000_0000 && forall p <- plains :: |p| + 10 + TAG_LEN <= frame.Length
      modifies sock, hello, frame, outbuf, this`encrypted
      ensures var h := Shake(c, SetupFor(suite, nonce, coins, coinsEph), old(sock.incoming), old(sock.writable));
              if h.Failed? then !ok && sock.outgoing == old(sock.outgoing) + h.sent && encrypted == old(encrypted)
              else Ended(sock, plains, gcm, h, old(sock.outgoing), old(sock.writable), ok) &&
                   count <= |plains| && (ok ==> count == |plains|) &&
                   encrypted == old(encrypted) + NonceLog(h.c2s, count)
    {
      ghost var h := Shake(c, SetupFor(suite, nonce, coins, coinsEph), sock.incoming, sock.writable);
      var session := new PqcSession();
      count := 0;
      ok := Handshake(sock, session, suite, nonce, coins, coinsEph);
      if !ok { return; }
      SessionIdLength(c, SetupFor(suite, nonce, coins, coinsEph), old(sock.incoming), old(sock.writable));
      ok, count := FinishSession(sock, session, plains, gcm, h, old(sock.outgoing), old(sock.writable),
                                 suite == SUITE_MLKEM768_FS);
    }
  }

  /** How many of n records come before the first whose encryption fails. */
  function Encryptable(gcm: nat -> bool, n: nat): (k: nat)
    ensures k <= n
  {
    if n == 0 then 0
    else
      var k := Encryptable(gcm, n - 1);
      if k == n - 1 && gcm(n - 1) then n else k
  }

  lemma {:induction false} EncryptedStops(gcm: nat -> bool, n: nat, k: nat)
    requires k < n && k <= Encryptable(gcm, n)
    ensures gcm(k) <==> k < Encryptable(gcm, n)
  {
    if k < n - 1 && k <= Encryptable(gcm, n - 1) { EncryptedStops(gcm, n - 1, k); }
  }

  /** The records of a session up to the first that cannot be encrypted, and Close if there is none. */
  function SessionStream(c: Primitives, key: Bytes, sid: Bytes, plains: seq<Bytes>, gcm: nat -> bool): Bytes {
    var k := Encryptable(gcm, |plains|);
    Stream(c, key, sid, plains[..k]) + (if k == |plains| then EncodeFrame(CLOSE) else [])
  }

  /** The encryptions of one session: sequence numbers 0 to count - 1, in order. */
  ghost function NonceLog(key: Bytes, count: nat): (r: seq<Encrypted>)
    ensures |r| == count
  {
    seq(count, (k: nat) => Encrypted(key, Nonce(k)))
  }

  lemma NonceLogNext(enc0: seq<Encrypted>, key: Bytes, n: nat)
    ensures enc0 + NonceLog(key, n) + [Encrypted(key, Nonce(n))] == enc0 + NonceLog(key, n + 1)
  {
  }

  /** Over a session, the failed write included, no nonce is used twice. */
  lemma SessionNoncesDistinct(key: Bytes, count: nat, a: nat, b: nat)
    requires a < b < count <= TWO64
    ensures NonceLog(key, count)[a] != NonceLog(key, count)[b]
  {
    if Nonce(a) == Nonce(b) { NonceInjective(a, b); }
  }

  /** What record n adds to the stream, and what is left of the stream when it does not fit. */
  lemma StreamNext(c: Primitives, key: Bytes, sid: Bytes, plains: seq<Bytes>, n: nat, out0: Bytes, stream: Bytes,
                   f: Bytes, writable: nat)
    requires n < |plains| && stream == Stream(c, key, sid, plains[..n]) && |stream| <= writable
    requires f == EncodeFrame(RecordFrame(c, key, sid, n, plains[n]))
    ensures stream + f == Stream(c, key, sid, plains[..n + 1])
    ensures |f| <= writable - |stream| ==> out0 + stream + f == out0 + (stream + f)
    ensures |f| > writable - |stream| ==>
              var all := Stream(c, key, sid, plains);
              |all| > writable && out0 + stream + Cut(f, writable - |stream|) == out0 + Cut(all, writable)
  {
    RecordFramesSnoc(c, key, sid, plains, n);
    if |f| > writable - |stream| {
      StreamPrefix(c, key, sid, plains, n + 1);
      CutTwice(out0, stream, f, writable);
      assert Stream(c, key, sid, plains)[..writable] == (stream + f)[..writable];
    }
  }

  lemma StreamPrefix(c: Primitives, key: Bytes, sid: Bytes, plains: seq<Bytes>, n: nat)
    requires n <= |plains|
    ensures Stream(c, key, sid, plains[..n]) <= Stream(c, key, sid, plains)
  {
    var fs := RecordFrames(c, key, sid, plains);
    assert fs == RecordFrames(c, key, sid, plains[..n]) + fs[n..];
    EncodeAllConcat(RecordFrames(c, key, sid, plains[..n]), fs[n..]);
  }

  lemma SessionIdLength(c: Primitives, s: Setup, incoming: Bytes, writable: nat)
    requires Params(s.suite).Some?
    ensures Shake(c, s, incoming, writable).Established? ==> |Shake(c, s, incoming, writable).sid| == 8
  {
  }

  /** Writing two pieces one after the other, each as far as it goes, is writing their concatenation. */
  lemma CutTwice(out0: Bytes, a: Bytes, b: Bytes, writable: nat)
    ensures |a| <= writable ==> out0 + a + Cut(b, writable - |a|) == out0 + Cut(a + b, writable)
    ensures |a| > writable ==> Cut(a + b, writable) == Cut(a, writable)
  {
    if |a| > writable { assert (a + b)[..writable] == a[..writable]; }
    else if |b| > writable - |a| { assert (a + b)[..writable] == a + b[..writable - |a|]; }
  }

  /** memcpy at a moving index. */
  method Append(buf: array<byte>, i: nat, src: Bytes, ghost sofar: Bytes) returns (next: nat)
    requires i + |src| <= buf.Length && buf[..i] == sofar
    modifies buf
    ensures next == i + |src| && buf[..next] == sofar + src
  {
    CopyInto(buf, i, src);
    next := i + |src|;
  }

  /** Two fields packed into a local buffer. */
  method Joined(a: Bytes, b: Bytes) returns (r: Bytes)
    ensures r == a + b
  {
    var buf := new byte[|a| + |b|];
    CopyInto(buf, 0, a);
    CopyInto(buf, |a|, b);
    assert buf[..|a|] == a;
    r := buf[..];
  }
}
