/**
 * The client side of the handshake: what it computes as a function of its random
 * inputs and of the byte stream it receives, and the reference Python client.
 */
module Client {
  import opened Bytes
  import opened Crypto
  import opened KeySchedule
  import opened Messages
  import opened Framing

  /** Everything a client run starts from; `coins` and `coinsEph` are its KEM randomness. */
  datatype Setup = Setup(
    suite: byte, deviceId: Bytes, psk: Bytes, ek: Bytes, nonce: Bytes, coins: Bytes, coinsEph: Bytes)

  function PinnedId(c: Primitives, ek: Bytes): Bytes { c.sha256(ek)[..KEY_ID_LEN] }

  predicate MlKemKey(ek: Bytes) { |ek| == 800 || |ek| == 1184 || |ek| == 1568 }

  datatype Opening = NoHello | Hello(hello: Bytes, ss: Bytes32)

  /** The ClientHello, unless the pinned key is unusable. */
  function Open(c: Primitives, s: Setup): Opening {
    if !MlKemKey(s.ek) then NoHello
    else
      match c.encaps(s.ek, s.coins)
      case Refused => NoHello
      case Encapsulated(ct, ss) => Hello(Build(c, s.suite, s.deviceId, PinnedId(c, s.ek), s.nonce, ct, s.psk), ss)
  }

  /** The fields of a ServerHello payload of the right length. */
  datatype Offer = Offer(sn: Bytes, sid: Bytes, ek: Bytes, mac: Bytes)

  function Split(p: SuiteParams, payload: Bytes): Offer
    requires |payload| == ServerHelloLen(p)
  {
    var ekLen := if p.fs then p.ek else 0;
    Offer(payload[..32], payload[32..40], payload[40..40 + ekLen], payload[40 + ekLen..])
  }

  /** Splitting a payload put together from fields of the right sizes. */
  lemma SplitBuilt(p: SuiteParams, sn: Bytes, sid: Bytes, ek: Bytes, mac: Bytes)
    requires |sn| == 32 && |sid| == 8 && |mac| == 32 && |ek| == (if p.fs then p.ek else 0)
    ensures |sn + sid + ek + mac| == ServerHelloLen(p) && Split(p, sn + sid + ek + mac) == Offer(sn, sid, ek, mac)
  {
    var s := sn + sid + ek + mac;
    assert s[..32] == sn && s[32..40] == sid && s[40..40 + |ek|] == ek && s[40 + |ek|..] == mac;
  }

  /** Which check ended the run, or the answer. */
  datatype Answer =
    | BadPsk
    | BadServerMac
    | BadEphemeralKey
    | Answer(finished: Bytes, sid: Bytes, c2s: Bytes)

  function ServerConfirm(c: Primitives, fs: bool, ss: Bytes, psk: Bytes, cn: Bytes, sn: Bytes,
                         th2: Bytes): Option<Bytes> {
    if fs then Some(DeriveStage1(c, ss, psk, cn, sn, th2))
    else
      match DeriveKeys(c, ss, psk, cn, sn, th2)
      case None => None
      case Some(k) => Some(k.srvConfirm)
  }

  function Finish(c: Primitives, keys: SessionKeys, transcript: Bytes, tail: Bytes, o: Offer): Answer {
    Answer(tail + c.hmac(keys.cliConfirm, transcript + o.mac), o.sid, keys.c2s)
  }

  /** Mode B after the MAC check: encapsulate to ek_E and derive the data keys. */
  function AnswerFs(c: Primitives, s: Setup, ss: Bytes, o: Offer, th2: Bytes32): Answer {
    if |o.ek| != |s.ek| then BadEphemeralKey
    else
      match c.encaps(o.ek, s.coinsEph)
      case Refused => BadEphemeralKey
      case Encapsulated(ctEph, sse) =>
        var th3 := Transcript3(c, th2, ctEph);
        Finish(c, DeriveStage2(c, ss, sse, s.psk, s.nonce, o.sn, th3), th3, ctEph, o)
  }

  /** What the client does with a ServerHello: the server MAC is checked before ek_E is used. */
  function Respond(c: Primitives, s: Setup, hello: Bytes, ss: Bytes, o: Offer, fs: bool): Answer {
    var th2 := Transcript2(c, hello, o.sn, o.sid, o.ek);
    match ServerConfirm(c, fs, ss, s.psk, s.nonce, o.sn, th2)
    case None => BadPsk
    case Some(k) =>
      if c.hmac(k, th2) != o.mac then BadServerMac
      else if fs then AnswerFs(c, s, ss, o, th2)
      else Finish(c, DeriveKeys(c, ss, s.psk, s.nonce, o.sn, th2).value, th2, [], o)
  }

  /** The outcome of a handshake: what was sent, and on success what is left to read and the session. */
  datatype Handshake =
    | Failed(sent: Bytes)
    | Established(sent: Bytes, rest: Bytes, sid: Bytes, c2s: Bytes, wire: nat)

  /** Sending one frame after `sent`: refused if too long, cut off when the peer stops taking bytes. */
  function Sending(sent: Bytes, f: Frame, writable: nat): Bytes {
    if |f.payload| > MAX_FRAME then sent
    else Cut(sent + EncodeFrame(f), if |sent| <= writable then writable else |sent|)
  }

  predicate Sent(sent: Bytes, f: Frame, writable: nat) {
    |f.payload| <= MAX_FRAME && |sent| + 3 + |f.payload| <= writable
  }

  /** The client handshake on a stream that delivers `incoming` and takes `writable` bytes. */
  function Shake(c: Primitives, s: Setup, incoming: Bytes, writable: nat): Handshake
    requires Params(s.suite).Some?
  {
    match Open(c, s)
    case NoHello => Failed([])
    case Hello(hello, ss) =>
      var f1 := Frame(FRAME_CLIENT_HELLO, hello);
      if !Sent([], f1, writable) then Failed(Sending([], f1, writable))
      else AwaitReply(c, s, hello, ss, incoming, writable)
  }

  function AwaitReply(c: Primitives, s: Setup, hello: Bytes, ss: Bytes, incoming: Bytes, writable: nat): Handshake
    requires Params(s.suite).Some?
  {
    var m1 := EncodeFrame(Frame(FRAME_CLIENT_HELLO, hello));
    match ParseFrame(incoming, MAX_FRAME)
    case Bad => Failed(m1)
    case Good(f, rest) =>
      if f.ftype != FRAME_SERVER_HELLO || |f.payload| != ServerHelloLen(Params(s.suite).value) then Failed(m1)
      else
        match Respond(c, s, hello, ss, Split(Params(s.suite).value, f.payload), Params(s.suite).value.fs)
        case Answer(fin, sid, c2s) =>
          var f3 := Frame(FRAME_CLIENT_FINISHED, fin);
          if !Sent(m1, f3, writable) then Failed(Sending(m1, f3, writable))
          else Established(m1 + EncodeFrame(f3), rest, sid, c2s, 3 + |hello| + 3 + |f.payload| + 3 + |fin|)
        case _ => Failed(m1)
  }

  /** The run once ClientHello exists and fits a frame. */
  lemma ShakeHello(c: Primitives, s: Setup, incoming: Bytes, writable: nat)
    requires Params(s.suite).Some? && Open(c, s).Hello? && |Open(c, s).hello| <= MAX_FRAME
    ensures var m1 := EncodeFrame(Frame(FRAME_CLIENT_HELLO, Open(c, s).hello));
            Shake(c, s, incoming, writable) ==
            if |m1| <= writable then AwaitReply(c, s, Open(c, s).hello, Open(c, s).ss, incoming, writable)
            else Failed(Cut(m1, writable))
  {
    var m1 := EncodeFrame(Frame(FRAME_CLIENT_HELLO, Open(c, s).hello));
    assert [] + m1 == m1;
  }

  // ---------------------------------------------------------------- test_client.py

  datatype Session = Session(sid: Bytes, c2s: Bytes, wire: nat)

  /** The socket and the result after a handshake that started with this much written and writable. */
  ghost predicate Outcome(sock: Socket, out0: Bytes, writable0: nat, h: Handshake, r: Option<Session>)
    reads sock
  {
    match h
    case Failed(sent) => r.None? && sock.outgoing == out0 + sent
    case Established(sent, rest, sid, c2s, wire) =>
      r == Some(Session(sid, c2s, wire)) && sock.outgoing == out0 + sent && sock.incoming == rest &&
      |sent| <= writable0 && sock.writable == writable0 - |sent|
  }

  /** handshake: sends, reads and accumulates the wire count step by step. */
  method PyHandshake(c: Primitives, s: Setup, sock: Socket) returns (r: Option<Session>)
    requires Params(s.suite).Some?
    modifies sock
    ensures Outcome(sock, old(sock.outgoing), old(sock.writable),
                    Shake(c, s, old(sock.incoming), old(sock.writable)), r)
  {
    if !MlKemKey(s.ek) { return None; }
    var e := c.encaps(s.ek, s.coins);
    if e.Refused? { return None; }
    var hello := Build(c, s.suite, s.deviceId, PinnedId(c, s.ek), s.nonce, e.ct, s.psk);
    var ok := sock.WriteFrame(Frame(FRAME_CLIENT_HELLO, hello));
    if !ok { return None; }
    r := PyAwaitReply(c, s, hello, e.ss, sock, old(sock.outgoing), old(sock.writable));
  }

  method PyAwaitReply(c: Primitives, s: Setup, hello: Bytes, ss: Bytes, sock: Socket, ghost out0: Bytes,
                      ghost writable0: nat)
    returns (r: Option<Session>)
    requires Params(s.suite).Some?
    requires var m1 := EncodeFrame(Frame(FRAME_CLIENT_HELLO, hello));
             |m1| <= writable0 && sock.outgoing == out0 + m1 && sock.writable == writable0 - |m1|
    modifies sock
    ensures Outcome(sock, out0, writable0, AwaitReply(c, s, hello, ss, old(sock.incoming), writable0), r)
  {
    ghost var m1 := EncodeFrame(Frame(FRAME_CLIENT_HELLO, hello));
    var params := Params(s.suite).value;
    var wire := 3 + |hello|;
    var reply := sock.ReadFrame();
    if reply.None? { return None; }
    if reply.value.ftype != FRAME_SERVER_HELLO { return None; }
    var payload := reply.value.payload;
    wire := wire + 3 + |payload|;
    if |payload| != ServerHelloLen(params) { return None; }
    var answer := PyRespond(c, s, hello, ss, Split(params, payload), params.fs);
    if !answer.Answer? { return None; }
    var f3 := Frame(FRAME_CLIENT_FINISHED, answer.finished);
    var ok := sock.WriteFrame(f3);
    SendingAfter(out0, m1, f3, writable0);
    if !ok { return None; }
    wire := wire + 3 + |answer.finished|;
    r := Some(Session(answer.sid, answer.c2s, wire));
  }

  /** Writing the second frame continues where the first one ended. */
  lemma SendingAfter(out0: Bytes, m1: Bytes, f: Frame, writable: nat)
    requires |m1| <= writable
    ensures |f.payload| <= MAX_FRAME ==>
              out0 + m1 + Cut(EncodeFrame(f), writable - |m1|) == out0 + Sending(m1, f, writable)
    ensures out0 + m1 + EncodeFrame(f) == out0 + (m1 + EncodeFrame(f))
  {
    var e := EncodeFrame(f);
    if |e| > writable - |m1| { assert (m1 + e)[..writable] == m1 + e[..writable - |m1|]; }
  }

  method PyRespond(c: Primitives, s: Setup, hello: Bytes, ss: Bytes, o: Offer, fs: bool) returns (r: Answer)
    ensures r == Respond(c, s, hello, ss, o, fs)
  {
    var th2 := Transcript2(c, hello, o.sn, o.sid, o.ek);
    var keys := SessionKeys([], [], [], []);
    var srvConfirm;
    if fs {
      srvConfirm := DeriveStage1(c, ss, s.psk, s.nonce, o.sn, th2);
    } else {
      var k := DeriveKeys(c, ss, s.psk, s.nonce, o.sn, th2);
      if k.None? { return BadPsk; }
      keys := k.value;
      srvConfirm := keys.srvConfirm;
    }
    if c.hmac(srvConfirm, th2) != o.mac { return BadServerMac; }
    var transcript, tail := th2, [];
    if fs {
      if |o.ek| != |s.ek| { return BadEphemeralKey; } // wrap_raw_pubkey's prefix check
      var e := c.encaps(o.ek, s.coinsEph);
      if e.Refused? { return BadEphemeralKey; }
      transcript := Transcript3(c, th2, e.ct);
      keys := DeriveStage2(c, ss, e.ss, s.psk, s.nonce, o.sn, transcript);
      tail := e.ct;
    }
    r := Answer(tail + c.hmac(keys.cliConfirm, transcript + o.mac), o.sid, keys.c2s);
  }
}
