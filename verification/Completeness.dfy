/**
 * Honest client and server, byte for byte: in every suite they complete, agree on
 * the keys, put the announced number of bytes on the wire, and the server delivers
 * what the client sealed.
 */
module Completeness {
  import opened Bytes
  import opened Crypto
  import opened KeySchedule
  import opened Messages
  import opened Framing
  import opened Records
  import opened Client
  import opened Server
  import opened Injectivity
  import opened Agreement

  /** A registered device with the server's key pinned, and fresh values of the right lengths. */
  ghost predicate Matching(c: Primitives, s: Setup, v: ServerSetup) {
    Params(s.suite).Some? && KemLengths(c) &&
    |s.deviceId| == DEVICE_ID_LEN && |s.psk| == PSK_LEN && |s.nonce| == NONCE_LEN &&
    |s.ek| == Params(s.suite).value.ek &&
    KeyPair(c, v.dk, s.ek) && v.keyId == PinnedId(c, s.ek) && s.deviceId in v.table && v.table[s.deviceId] == s.psk &&
    |v.sn| == NONCE_LEN && |v.sid| == SESSION_ID_LEN &&
    (Params(s.suite).value.fs ==> KeyPair(c, v.dkE, v.ekE) && |v.ekE| == |s.ek|)
  }

  /** The values an honest session exchanges. */
  datatype Script = Script(h: ClientHello, ss: Bytes32, mac: Bytes, finished: Bytes, c2s: Bytes)

  function Hello1(t: Script): Frame { Frame(FRAME_CLIENT_HELLO, Encode(t.h)) }

  function Reply2(v: ServerSetup, t: Script): Frame {
    ServerHello(v, Params(t.h.suite).Some? && Params(t.h.suite).value.fs, t.mac)
  }

  function Finished3(t: Script): Frame { Frame(FRAME_CLIENT_FINISHED, t.finished) }

  /** Both ends compute the script from their own inputs. */
  ghost predicate Follows(c: Primitives, s: Setup, v: ServerSetup, t: Script) {
    Params(s.suite).Some? && WellSized(t.h) && t.h.suite == s.suite && |v.sn| == 32 && |v.sid| == 8 &&
    Open(c, s) == Hello(Encode(t.h), t.ss) &&
    Admit(c, v, Hello1(t)) == Admitted(t.h, s.psk, t.ss) &&
    MacOf(c, v, Admitted(t.h, s.psk, t.ss), Encode(t.h)) == Some(t.mac) && |t.mac| == MAC_LEN &&
    |EkFor(v, Params(s.suite).value.fs)| == (if Params(s.suite).value.fs then Params(s.suite).value.ek else 0) &&
    Respond(c, s, Encode(t.h), t.ss, Offer(v.sn, v.sid, EkFor(v, Params(s.suite).value.fs), t.mac),
            Params(s.suite).value.fs)
      == Answer(t.finished, v.sid, t.c2s) &&
    Conclude(c, v, Admitted(t.h, s.psk, t.ss), Encode(t.h), t.mac, Finished3(t)) == Some(t.c2s) &&
    |t.finished| == (if Params(s.suite).value.fs then Params(s.suite).value.ct else 0) + MAC_LEN
  }

  // ---------------------------------------------------------------- the script exists

  lemma AdmittedHello(c: Primitives, s: Setup, v: ServerSetup) returns (h: ClientHello, ss: Bytes32)
    requires Matching(c, s, v)
    ensures WellSized(h) && h.suite == s.suite && h.nonce == s.nonce
    ensures Open(c, s) == Hello(Encode(h), ss)
    ensures Admit(c, v, Frame(FRAME_CLIENT_HELLO, Encode(h))) == Admitted(h, s.psk, ss)
  {
    var e := c.encaps(s.ek, s.coins);
    assert e.Encapsulated? && c.decaps(v.dk, e.ct) == Some(e.ss);
    var body := Body(s.suite, s.deviceId, v.keyId, s.nonce, e.ct);
    h := ClientHello(s.suite, s.deviceId, v.keyId, s.nonce, e.ct, HelloMac(c, s.psk, body));
    ss := e.ss;
    DecodeEncode(h);
  }

  /** Mode A: the client MAC the server expects is the one the client sends. */
  lemma AgreeModeA(c: Primitives, s: Setup, v: ServerSetup, h: ClientHello, ss: Bytes32) returns (t: Script)
    requires Matching(c, s, v) && WellSized(h) && h.suite == s.suite && h.nonce == s.nonce && !Params(s.suite).value.fs
    requires Open(c, s) == Hello(Encode(h), ss) &&
             Admit(c, v, Frame(FRAME_CLIENT_HELLO, Encode(h))) == Admitted(h, s.psk, ss)
    ensures Follows(c, s, v, t) && t.h == h
  {
    var th2: Bytes := Transcript2(c, Encode(h), v.sn, v.sid, []);
    var keys := DeriveKeys(c, ss, s.psk, s.nonce, v.sn, th2).value;
    var mac := c.hmac(keys.srvConfirm, th2);
    var fin := c.hmac(keys.cliConfirm, th2 + mac);
    assert [] + fin == fin;
    t := Script(h, ss, mac, fin, keys.c2s);
  }

  /** Mode B: both ends hold the same ephemeral secret, hence the same stage-2 keys. */
  lemma AgreeModeB(c: Primitives, s: Setup, v: ServerSetup, h: ClientHello, ss: Bytes32) returns (t: Script)
    requires Matching(c, s, v) && WellSized(h) && h.suite == s.suite && h.nonce == s.nonce && Params(s.suite).value.fs
    requires Open(c, s) == Hello(Encode(h), ss) &&
             Admit(c, v, Frame(FRAME_CLIENT_HELLO, Encode(h))) == Admitted(h, s.psk, ss)
    ensures Follows(c, s, v, t) && t.h == h
  {
    var th2 := Transcript2(c, Encode(h), v.sn, v.sid, v.ekE);
    var mac := c.hmac(DeriveStage1(c, ss, s.psk, s.nonce, v.sn, th2), th2);
    var e := c.encaps(v.ekE, s.coinsEph);
    assert e.Encapsulated? && c.decaps(v.dkE, e.ct) == Some(e.ss);
    var th3: Bytes := Transcript3(c, th2, e.ct);
    var keys := DeriveStage2(c, ss, e.ss, s.psk, s.nonce, v.sn, th3);
    var clientMac := c.hmac(keys.cliConfirm, th3 + mac);
    var fin := e.ct + clientMac;
    assert fin[..|e.ct|] == e.ct && fin[|e.ct|..] == clientMac;
    t := Script(h, ss, mac, fin, keys.c2s);
  }

  /** For every suite, every registered device and all random values there is one script both ends follow. */
  lemma HonestScript(c: Primitives, s: Setup, v: ServerSetup) returns (t: Script)
    requires Matching(c, s, v)
    ensures Follows(c, s, v, t) && t.h.nonce == s.nonce
  {
    var h, ss := AdmittedHello(c, s, v);
    if Params(s.suite).value.fs { t := AgreeModeB(c, s, v, h, ss); } else { t := AgreeModeA(c, s, v, h, ss); }
  }

  // ---------------------------------------------------------------- the two ends run it

  lemma FrameSizes(c: Primitives, s: Setup, v: ServerSetup, t: Script)
    requires Follows(c, s, v, t)
    ensures var p := Params(s.suite).value;
            |Hello1(t).payload| == ClientHelloLen(p) && |Reply2(v, t).payload| == ServerHelloLen(p) &&
            |Finished3(t).payload| == (if p.fs then p.ct else 0) + MAC_LEN
  {
    EncodedHead(t.h);
  }

  lemma SplitReply(c: Primitives, s: Setup, v: ServerSetup, t: Script)
    requires Follows(c, s, v, t) && |Reply2(v, t).payload| == ServerHelloLen(Params(s.suite).value)
    ensures Split(Params(s.suite).value, Reply2(v, t).payload) ==
            Offer(v.sn, v.sid, EkFor(v, Params(s.suite).value.fs), t.mac)
  {
    SplitBuilt(Params(s.suite).value, v.sn, v.sid, EkFor(v, Params(s.suite).value.fs), t.mac);
  }

  /** The client completes on the server's answer, whatever follows it. */
  lemma ClientCompletes(c: Primitives, s: Setup, v: ServerSetup, t: Script, rest: Bytes, writable: nat)
    requires Follows(c, s, v, t) && |EncodeFrame(Hello1(t))| + |EncodeFrame(Finished3(t))| <= writable
    ensures Shake(c, s, EncodeFrame(Reply2(v, t)) + rest, writable) ==
            Established(EncodeFrame(Hello1(t)) + EncodeFrame(Finished3(t)), rest, v.sid, t.c2s,
                        |EncodeFrame(Hello1(t))| + |EncodeFrame(Reply2(v, t))| + |EncodeFrame(Finished3(t))|)
  {
    FrameSizes(c, s, v, t);
    SplitReply(c, s, v, t);
    var incoming := EncodeFrame(Reply2(v, t)) + rest;
    FrameRoundTrip(Reply2(v, t), rest, MAX_FRAME);
    ShakeHello(c, s, incoming, writable);
  }

  /** The server answers a ClientHello the same way whatever the client sends next. */
  lemma ServerAnswers(c: Primitives, s: Setup, v: ServerSetup, t: Script, more: Bytes, writable: nat)
    requires Follows(c, s, v, t) && |EncodeFrame(Reply2(v, t))| <= writable
    ensures Serve(c, v, EncodeFrame(Hello1(t)) + more, writable) ==
            AwaitFinished(c, v, Admitted(t.h, s.psk, t.ss), Encode(t.h), t.mac, more)
    ensures Serve(c, v, EncodeFrame(Hello1(t)) + more, writable).sent == EncodeFrame(Reply2(v, t))
  {
    FrameSizes(c, s, v, t);
    FrameRoundTrip(Hello1(t), more, MAX_FRAME);
  }

  /** The server completes on the client's messages and goes on to read records from what follows. */
  lemma ServerCompletes(c: Primitives, s: Setup, v: ServerSetup, t: Script, more: Bytes, writable: nat)
    requires Follows(c, s, v, t) && |EncodeFrame(Reply2(v, t))| <= writable
    ensures Serve(c, v, EncodeFrame(Hello1(t)) + EncodeFrame(Finished3(t)) + more, writable) ==
            Served(EncodeFrame(Reply2(v, t)), v.sid, t.c2s, Deliver(c, t.c2s, v.sid, -1, more))
  {
    FrameSizes(c, s, v, t);
    var next := EncodeFrame(Finished3(t)) + more;
    assert EncodeFrame(Hello1(t)) + EncodeFrame(Finished3(t)) + more == EncodeFrame(Hello1(t)) + next;
    ServerAnswers(c, s, v, t, next, writable);
    FrameRoundTrip(Finished3(t), more, MAX_FRAME);
  }

  /** The bytes that cross the socket in a handshake; 1279 and 3551 for the suites of ML-KEM-768. */
  function WireBytes(suite: byte): nat {
    if suite == 0x01 then 1279 else if suite == 0x02 then 959 else if suite == 0x11 then 3551 else 2527
  }

  /** What the client is offered by the script's ServerHello, and what the server admitted. */
  function OfferOf(v: ServerSetup, t: Script): Offer {
    Offer(v.sn, v.sid, EkFor(v, Params(t.h.suite).Some? && Params(t.h.suite).value.fs), t.mac)
  }

  function AdmittedOf(s: Setup, t: Script): Admission { Admitted(t.h, s.psk, t.ss) }

  /**
   * Both ends hold the same messages and secrets, hence the same confirmation key
   * of the server, and the same keys to confirm the client and to protect data in
   * either direction.
   */
  predicate SameEnds(c: Primitives, s: Setup, v: ServerSetup, t: Script, end: End) {
    ClientEnd(c, s, t.h, t.ss, OfferOf(v, t)) == end && ServerEnd(c, v, AdmittedOf(s, t), t.mac, t.finished) == end &&
    Sized(end) && t.mac == c.hmac(ConfirmKey(c, end), Th2(c, end)) && t.finished == FinishedBytes(c, end) &&
    t.c2s == DataKeys(c, end).c2s
  }

  lemma BothEndsAgree(c: Primitives, s: Setup, v: ServerSetup, t: Script) returns (end: End)
    requires Matching(c, s, v) && Follows(c, s, v, t) && t.h.nonce == s.nonce
    ensures SameEnds(c, s, v, t, end)
  {
    end := ClientEnd(c, s, t.h, t.ss, OfferOf(v, t));
    AnswerIsEnd(c, s, t.h, t.ss, OfferOf(v, t));
    CompletionIsEnd(c, v, AdmittedOf(s, t), t.mac, Finished3(t));
    SameEphemeral(c, s, v, t);
  }

  /** The two ends see the same ciphertext, so a key pair gives them the same ephemeral secret. */
  lemma SameEphemeral(c: Primitives, s: Setup, v: ServerSetup, t: Script)
    requires Matching(c, s, v) && Follows(c, s, v, t) && |s.psk| == PSK_LEN
    requires var x := ClientEnd(c, s, t.h, t.ss, OfferOf(v, t));
             Sized(x) && t.finished == FinishedBytes(c, x)
    requires var y := ServerEnd(c, v, AdmittedOf(s, t), t.mac, t.finished);
             Sized(y) && t.finished == FinishedBytes(c, y)
    ensures ClientEnd(c, s, t.h, t.ss, OfferOf(v, t)) == ServerEnd(c, v, AdmittedOf(s, t), t.mac, t.finished)
  {
    FinishedParts(c, ClientEnd(c, s, t.h, t.ss, OfferOf(v, t)), ServerEnd(c, v, AdmittedOf(s, t), t.mac, t.finished));
  }

  /**
   * Honest completeness: on the exact bytes the other end sends, client and server
   * both complete with the same session id and keys, and the wire count the client
   * reports is the number of bytes exchanged. Neither waits for a byte the other
   * has not sent yet: the client sends its hello before it reads anything, the
   * server answers on the hello alone, and the client completes on that answer.
   */
  lemma HonestHandshakeCompletes(c: Primitives, s: Setup, v: ServerSetup, clientRoom: nat, serverRoom: nat, more: Bytes)
    returns (t: Script, end: End, fromClient: Bytes, fromServer: Bytes)
    requires Matching(c, s, v) && clientRoom >= WireBytes(s.suite) && serverRoom >= WireBytes(s.suite)
    ensures |fromClient| + |fromServer| == WireBytes(s.suite)
    ensures Shake(c, s, [], clientRoom) == Failed(EncodeFrame(Hello1(t)))
    ensures Serve(c, v, EncodeFrame(Hello1(t)), serverRoom) == Dropped(fromServer)
    ensures fromClient == EncodeFrame(Hello1(t)) + EncodeFrame(Finished3(t))
    ensures Shake(c, s, fromServer, clientRoom) == Established(fromClient, [], v.sid, t.c2s, WireBytes(s.suite))
    ensures Serve(c, v, fromClient + more, serverRoom) ==
            Served(fromServer, v.sid, t.c2s, Deliver(c, t.c2s, v.sid, -1, more))
    ensures SameEnds(c, s, v, t, end)
  {
    t := HonestScript(c, s, v);
    HandshakeSize(c, s, v, t);
    fromServer := EncodeFrame(Reply2(v, t));
    fromClient := EncodeFrame(Hello1(t)) + EncodeFrame(Finished3(t));
    assert fromServer + [] == fromServer;
    ClientCompletes(c, s, v, t, [], clientRoom);
    ServerCompletes(c, s, v, t, more, serverRoom);
    FirstTurns(c, s, v, t, clientRoom, serverRoom);
    end := BothEndsAgree(c, s, v, t);
  }

  /** Each end sends its next message on exactly what the other has sent so far. */
  lemma FirstTurns(c: Primitives, s: Setup, v: ServerSetup, t: Script, clientRoom: nat, serverRoom: nat)
    requires Follows(c, s, v, t) && clientRoom >= WireBytes(s.suite) && serverRoom >= WireBytes(s.suite)
    ensures Shake(c, s, [], clientRoom) == Failed(EncodeFrame(Hello1(t)))
    ensures Serve(c, v, EncodeFrame(Hello1(t)), serverRoom) == Dropped(EncodeFrame(Reply2(v, t)))
  {
    HandshakeSize(c, s, v, t);
    FrameSizes(c, s, v, t);
    ShakeHello(c, s, [], clientRoom);
    ServerAnswers(c, s, v, t, [], serverRoom);
    assert EncodeFrame(Hello1(t)) + [] == EncodeFrame(Hello1(t));
  }

  lemma HandshakeSize(c: Primitives, s: Setup, v: ServerSetup, t: Script)
    requires Follows(c, s, v, t)
    ensures |EncodeFrame(Hello1(t))| + |EncodeFrame(Reply2(v, t))| + |EncodeFrame(Finished3(t))| == WireBytes(s.suite)
  {
    FrameSizes(c, s, v, t);
  }

  // ---------------------------------------------------------------- any order of delivery

  /** What the network has handed to each end so far. */
  datatype Wire = Wire(toServer: Bytes, toClient: Bytes)

  /** It hands over the next n bytes one end has sent, or all that is left of them. */
  datatype Chunk = ToServer(n: nat) | ToClient(n: nat)

  function Grown(seen: Bytes, sent: Bytes, n: nat): Bytes { Cut(sent, |seen| + n) }

  function Pass(c: Primitives, s: Setup, v: ServerSetup, clientRoom: nat, serverRoom: nat, w: Wire, k: Chunk): Wire
    requires Params(s.suite).Some?
  {
    match k
    case ToServer(n) => w.(toServer := Grown(w.toServer, Shake(c, s, w.toClient, clientRoom).sent, n))
    case ToClient(n) => w.(toClient := Grown(w.toClient, Serve(c, v, w.toServer, serverRoom).sent, n))
  }

  function PassAll(c: Primitives, s: Setup, v: ServerSetup, clientRoom: nat, serverRoom: nat, ks: seq<Chunk>): Wire
    requires Params(s.suite).Some?
  {
    if ks == [] then Wire([], [])
    else Pass(c, s, v, clientRoom, serverRoom, PassAll(c, s, v, clientRoom, serverRoom, ks[..|ks| - 1]), ks[|ks| - 1])
  }

  function FromClient(t: Script): Bytes { EncodeFrame(Hello1(t)) + EncodeFrame(Finished3(t)) }

  function FromServer(v: ServerSetup, t: Script): Bytes { EncodeFrame(Reply2(v, t)) }

  /**
   * Each end has been handed a prefix of what the other sends, and nothing that is sent only in
   * answer to what it lacks.
   */
  predicate Ordered(hello: Bytes, all: Bytes, reply: Bytes, w: Wire) {
    w.toServer <= all && w.toClient <= reply && (w.toClient != [] ==> hello <= w.toServer) &&
    (|w.toServer| > |hello| ==> w.toClient == reply)
  }

  predicate OnTrack(v: ServerSetup, t: Script, w: Wire) {
    Ordered(EncodeFrame(Hello1(t)), FromClient(t), FromServer(v, t), w)
  }

  lemma GrowKeepsOrder(hello: Bytes, all: Bytes, reply: Bytes, w: Wire, n: nat)
    requires Ordered(hello, all, reply, w) && hello <= all
    ensures Ordered(hello, all, reply, w.(toServer := Grown(w.toServer, if w.toClient == reply then all else hello, n)))
    ensures Ordered(hello, all, reply, w.(toClient := Grown(w.toClient, if hello <= w.toServer then reply else [], n)))
  {
    var x := Grown(w.toServer, if w.toClient == reply then all else hello, n);
    if hello <= w.toServer { assert w.toServer <= x; }
  }

  predicate Finished(v: ServerSetup, t: Script, w: Wire) {
    w.toServer == FromClient(t) && w.toClient == FromServer(v, t)
  }

  /** Until it has all of ServerHello the client has sent its hello and nothing else. */
  lemma ClientSends(c: Primitives, s: Setup, v: ServerSetup, t: Script, y: Bytes, clientRoom: nat)
    requires Follows(c, s, v, t) && clientRoom >= WireBytes(s.suite) && y <= FromServer(v, t)
    ensures Shake(c, s, y, clientRoom).sent == if y == FromServer(v, t) then FromClient(t) else EncodeFrame(Hello1(t))
  {
    HandshakeSize(c, s, v, t);
    FrameSizes(c, s, v, t);
    var all := FromServer(v, t);
    assert all + [] == all;
    if y == all { ClientCompletes(c, s, v, t, [], clientRoom); }
    else {
      assert y == all[..|y|];
      CutFrameIsBad(Reply2(v, t), [], |y|, MAX_FRAME);
      ShakeHello(c, s, y, clientRoom);
    }
  }

  /** Until it has all of ClientHello the server has sent nothing, and from then on its ServerHello. */
  lemma ServerSends(c: Primitives, s: Setup, v: ServerSetup, t: Script, x: Bytes, serverRoom: nat)
    requires Follows(c, s, v, t) && serverRoom >= WireBytes(s.suite) && x <= FromClient(t)
    ensures Serve(c, v, x, serverRoom).sent == if EncodeFrame(Hello1(t)) <= x then FromServer(v, t) else []
  {
    HandshakeSize(c, s, v, t);
    FrameSizes(c, s, v, t);
    var hello := EncodeFrame(Hello1(t));
    if |x| < |hello| {
      assert x == FromClient(t)[..|x|];
      CutFrameIsBad(Hello1(t), EncodeFrame(Finished3(t)), |x|, MAX_FRAME);
    } else {
      assert hello == FromClient(t)[..|hello|] == x[..|hello|];
      assert x == hello + x[|hello|..];
      ServerAnswers(c, s, v, t, x[|hello|..], serverRoom);
    }
  }

  lemma PassKeepsTrack(c: Primitives, s: Setup, v: ServerSetup, t: Script, clientRoom: nat, serverRoom: nat, w: Wire,
                       k: Chunk)
    requires Follows(c, s, v, t) && clientRoom >= WireBytes(s.suite) && serverRoom >= WireBytes(s.suite) &&
             OnTrack(v, t, w)
    ensures OnTrack(v, t, Pass(c, s, v, clientRoom, serverRoom, w, k))
  {
    ClientSends(c, s, v, t, w.toClient, clientRoom);
    ServerSends(c, s, v, t, w.toServer, serverRoom);
    match k
    case ToServer(n) => GrowKeepsOrder(EncodeFrame(Hello1(t)), FromClient(t), FromServer(v, t), w, n);
    case ToClient(n) => GrowKeepsOrder(EncodeFrame(Hello1(t)), FromClient(t), FromServer(v, t), w, n);
  }

  /** A handshake that is not finished can always go on: something one end has sent is still to be handed over. */
  lemma SomethingToHandOver(c: Primitives, s: Setup, v: ServerSetup, t: Script, clientRoom: nat, serverRoom: nat,
                            w: Wire)
    returns (k: Chunk)
    requires Follows(c, s, v, t) && clientRoom >= WireBytes(s.suite) && serverRoom >= WireBytes(s.suite)
    requires OnTrack(v, t, w) && !Finished(v, t, w)
    ensures var u := Pass(c, s, v, clientRoom, serverRoom, w, k);
            |u.toServer| + |u.toClient| == |w.toServer| + |w.toClient| + 1
  {
    ClientSends(c, s, v, t, w.toClient, clientRoom);
    ServerSends(c, s, v, t, w.toServer, serverRoom);
    k := RoomToGrow(EncodeFrame(Hello1(t)), FromClient(t), FromServer(v, t), w);
  }

  lemma RoomToGrow(hello: Bytes, all: Bytes, reply: Bytes, w: Wire) returns (k: Chunk)
    requires Ordered(hello, all, reply, w) && hello <= all && !(w.toServer == all && w.toClient == reply)
    ensures match k
            case ToServer(n) =>
              |Grown(w.toServer, if w.toClient == reply then all else hello, n)| == |w.toServer| + 1
            case ToClient(n) =>
              |Grown(w.toClient, if hello <= w.toServer then reply else [], n)| == |w.toClient| + 1
  {
    if w.toClient == reply || !(hello <= w.toServer) {
      if |w.toServer| >= |hello| { assert hello == all[..|hello|] == w.toServer[..|hello|]; }
      k := ToServer(1);
    } else {
      k := ToClient(1);
    }
  }

  lemma {:induction false} StaysOnTrack(c: Primitives, s: Setup, v: ServerSetup, t: Script, clientRoom: nat,
                                        serverRoom: nat, ks: seq<Chunk>)
    requires Follows(c, s, v, t) && clientRoom >= WireBytes(s.suite) && serverRoom >= WireBytes(s.suite)
    ensures OnTrack(v, t, PassAll(c, s, v, clientRoom, serverRoom, ks))
  {
    if ks != [] {
      StaysOnTrack(c, s, v, t, clientRoom, serverRoom, ks[..|ks| - 1]);
      var w := PassAll(c, s, v, clientRoom, serverRoom, ks[..|ks| - 1]);
      PassKeepsTrack(c, s, v, t, clientRoom, serverRoom, w, ks[|ks| - 1]);
    }
  }

  /**
   * No deadlock and no loss of agreement in any order of delivery: whatever chunks
   * the network has handed over so far, either both ends have completed, after
   * exactly the announced number of bytes, or another byte can be handed over.
   */
  lemma EveryDeliveryCompletes(c: Primitives, s: Setup, v: ServerSetup, clientRoom: nat, serverRoom: nat,
                               ks: seq<Chunk>)
    returns (t: Script, w: Wire)
    requires Matching(c, s, v) && clientRoom >= WireBytes(s.suite) && serverRoom >= WireBytes(s.suite)
    ensures w == PassAll(c, s, v, clientRoom, serverRoom, ks) && |w.toServer| + |w.toClient| <= WireBytes(s.suite)
    ensures |w.toServer| + |w.toClient| == WireBytes(s.suite) ==>
              Shake(c, s, w.toClient, clientRoom) == Established(w.toServer, [], v.sid, t.c2s, WireBytes(s.suite)) &&
              Serve(c, v, w.toServer, serverRoom) == Served(w.toClient, v.sid, t.c2s, Delivery([], true))
    ensures |w.toServer| + |w.toClient| < WireBytes(s.suite) ==>
              exists k: Chunk :: var u := Pass(c, s, v, clientRoom, serverRoom, w, k);
                                 |u.toServer| + |u.toClient| == |w.toServer| + |w.toClient| + 1
  {
    t := HonestScript(c, s, v);
    w := PassAll(c, s, v, clientRoom, serverRoom, ks);
    HandshakeSize(c, s, v, t);
    StaysOnTrack(c, s, v, t, clientRoom, serverRoom, ks);
    if Finished(v, t, w) {
      CompleteAtTheEnd(c, s, v, t, clientRoom, serverRoom);
    } else {
      var k := SomethingToHandOver(c, s, v, t, clientRoom, serverRoom, w);
    }
  }

  lemma CompleteAtTheEnd(c: Primitives, s: Setup, v: ServerSetup, t: Script, clientRoom: nat, serverRoom: nat)
    requires Follows(c, s, v, t) && clientRoom >= WireBytes(s.suite) && serverRoom >= WireBytes(s.suite)
    ensures Shake(c, s, FromServer(v, t), clientRoom) ==
            Established(FromClient(t), [], v.sid, t.c2s, WireBytes(s.suite))
    ensures Serve(c, v, FromClient(t), serverRoom) == Served(FromServer(v, t), v.sid, t.c2s, Delivery([], true))
  {
    HandshakeSize(c, s, v, t);
    assert FromServer(v, t) + [] == FromServer(v, t) && FromClient(t) + [] == FromClient(t);
    ClientCompletes(c, s, v, t, [], clientRoom);
    ServerCompletes(c, s, v, t, [], serverRoom);
  }

  // ---------------------------------------------------------------- delivery

  predicate Deliverable(plains: seq<Bytes>) {
    |plains| <= TWO64 && forall p <- plains :: |p| + 10 + TAG_LEN <= MAX_FRAME
  }

  /** One complete record in front of a stream is delivered first. */
  lemma DeliverRecord(c: Primitives, key: Bytes, sid: Bytes, n: nat, plain: Bytes, rest: Bytes)
    requires AeadLengths(c) && AeadOpens(c) && n < TWO64 && |plain| + 10 + TAG_LEN <= MAX_FRAME
    ensures var d := Deliver(c, key, sid, n, rest);
            Deliver(c, key, sid, n - 1, EncodeFrame(RecordFrame(c, key, sid, n, plain)) + rest) ==
            Delivery([plain] + d.plains, d.orderly)
  {
    RecordSize(c, key, sid, n, plain);
    FrameRoundTrip(RecordFrame(c, key, sid, n, plain), rest, MAX_FRAME);
    SealedRecordOpens(c, key, sid, n, plain, n - 1);
  }

  lemma DeliverClose(c: Primitives, key: Bytes, sid: Bytes, last: int, rest: Bytes)
    ensures Deliver(c, key, sid, last, EncodeFrame(CLOSE) + rest) == Delivery([], true)
  {
    FrameRoundTrip(CLOSE, rest, MAX_FRAME);
  }

  /** A cut through or behind the first record: it is lost, or delivered ahead of what the rest delivers. */
  lemma DeliverCutRecord(c: Primitives, key: Bytes, sid: Bytes, n: nat, plain: Bytes, tail: Bytes, s: Bytes)
    returns (rest: Bytes, lost: bool)
    requires AeadLengths(c) && AeadOpens(c) && n < TWO64 && |plain| + 10 + TAG_LEN <= MAX_FRAME
    requires s <= EncodeFrame(RecordFrame(c, key, sid, n, plain)) + tail
    ensures lost ==>
              |s| < |EncodeFrame(RecordFrame(c, key, sid, n, plain))| &&
              Deliver(c, key, sid, n - 1, s) == Delivery([], true)
    ensures !lost ==> rest <= tail && |s| == |EncodeFrame(RecordFrame(c, key, sid, n, plain))| + |rest|
    ensures !lost ==> var e := Deliver(c, key, sid, n, rest);
                      Deliver(c, key, sid, n - 1, s) == Delivery([plain] + e.plains, e.orderly)
  {
    var f := RecordFrame(c, key, sid, n, plain);
    var head := EncodeFrame(f);
    RecordSize(c, key, sid, n, plain);
    assert s == (head + tail)[..|s|];
    lost := |s| < |head|;
    rest := [];
    if lost { CutFrameIsBad(f, tail, |s|, MAX_FRAME); }
    else {
      rest := tail[..|s| - |head|];
      assert s == head + rest;
      DeliverRecord(c, key, sid, n, plain, rest);
    }
  }

  lemma DeliverCutClose(c: Primitives, key: Bytes, sid: Bytes, last: int, cut: nat)
    requires cut <= |EncodeFrame(CLOSE)|
    ensures Deliver(c, key, sid, last, EncodeFrame(CLOSE)[..cut]) == Delivery([], true)
  {
    assert EncodeFrame(CLOSE) + [] == EncodeFrame(CLOSE);
    if cut < |EncodeFrame(CLOSE)| {
      CutFrameIsBad(CLOSE, [], cut, MAX_FRAME);
    } else {
      DeliverClose(c, key, sid, last, []);
    }
  }

  /** Part of the plaintexts, in order and from the start; all of them if the stream was complete. */
  predicate PrefixDelivery(d: Delivery, plains: seq<Bytes>, complete: bool) {
    d.orderly && d.plains <= plains && (complete ==> d.plains == plains)
  }

  lemma PrefixCons(d: Delivery, plains: seq<Bytes>, n: nat, complete: bool)
    requires n < |plains| && PrefixDelivery(d, plains[n + 1..], complete)
    ensures PrefixDelivery(Delivery([plains[n]] + d.plains, d.orderly), plains[n..], complete)
  {
    assert plains[n..] == [plains[n]] + plains[n + 1..];
  }

  /** What is on the wire from record n on. */
  function TailFrom(c: Primitives, key: Bytes, sid: Bytes, plains: seq<Bytes>, n: nat): Bytes
    requires n <= |plains|
  {
    EncodeAll(RecordFrames(c, key, sid, plains)[n..]) + EncodeFrame(CLOSE)
  }

  /** From record n on, any prefix s of the stream delivers a prefix of the remaining plaintexts. */
  lemma {:induction false} CutDelivery(c: Primitives, key: Bytes, sid: Bytes, plains: seq<Bytes>, n: nat, s: Bytes,
                                       complete: bool)
    returns (d: Delivery)
    requires AeadLengths(c) && AeadOpens(c) && Deliverable(plains) && n <= |plains|
    requires s <= TailFrom(c, key, sid, plains, n) && complete == (|s| == |TailFrom(c, key, sid, plains, n)|)
    ensures d == Deliver(c, key, sid, n - 1, s) && PrefixDelivery(d, plains[n..], complete)
    decreases |plains| - n
  {
    if n == |plains| {
      d := DeliverLast(c, key, sid, plains, s);
    } else {
      var rest, lost := DeliverFirst(c, key, sid, plains, n, s, complete);
      if lost { d := Delivery([], true); }
      else {
        var e := CutDelivery(c, key, sid, plains, n + 1, rest, complete);
        d := Delivery([plains[n]] + e.plains, e.orderly);
        PrefixCons(e, plains, n, complete);
      }
    }
  }

  lemma DeliverLast(c: Primitives, key: Bytes, sid: Bytes, plains: seq<Bytes>, s: Bytes) returns (d: Delivery)
    requires s <= TailFrom(c, key, sid, plains, |plains|)
    ensures d == Deliver(c, key, sid, |plains| - 1, s) && d == Delivery([], true)
  {
    assert TailFrom(c, key, sid, plains, |plains|) == EncodeFrame(CLOSE);
    DeliverCutClose(c, key, sid, |plains| - 1, |s|);
    assert s == EncodeFrame(CLOSE)[..|s|];
    d := Delivery([], true);
  }

  /** The first record of a cut stream is lost, or delivered ahead of what the rest delivers. */
  lemma DeliverFirst(c: Primitives, key: Bytes, sid: Bytes, plains: seq<Bytes>, n: nat, s: Bytes, complete: bool)
    returns (rest: Bytes, lost: bool)
    requires AeadLengths(c) && AeadOpens(c) && Deliverable(plains) && n < |plains|
    requires s <= TailFrom(c, key, sid, plains, n) && complete == (|s| == |TailFrom(c, key, sid, plains, n)|)
    ensures lost ==> !complete && Deliver(c, key, sid, n - 1, s) == Delivery([], true)
    ensures !lost ==>
              rest <= TailFrom(c, key, sid, plains, n + 1) &&
              complete == (|rest| == |TailFrom(c, key, sid, plains, n + 1)|)
    ensures !lost ==> var e := Deliver(c, key, sid, n, rest);
                      Deliver(c, key, sid, n - 1, s) == Delivery([plains[n]] + e.plains, e.orderly)
  {
    FirstRecord(c, key, sid, plains, n);
    rest, lost := DeliverCutRecord(c, key, sid, n, plains[n], TailFrom(c, key, sid, plains, n + 1), s);
  }

  lemma FirstRecord(c: Primitives, key: Bytes, sid: Bytes, plains: seq<Bytes>, n: nat)
    requires n < |plains|
    ensures TailFrom(c, key, sid, plains, n) ==
            EncodeFrame(RecordFrame(c, key, sid, n, plains[n])) + TailFrom(c, key, sid, plains, n + 1)
  {
    var fs := RecordFrames(c, key, sid, plains);
    assert fs[n..][0] == RecordFrame(c, key, sid, n, plains[n]) && fs[n..][1..] == fs[n + 1..];
    assert EncodeAll(fs[n..]) == EncodeFrame(RecordFrame(c, key, sid, n, plains[n])) + EncodeAll(fs[n + 1..]);
  }

  lemma RecordSize(c: Primitives, key: Bytes, sid: Bytes, n: nat, plain: Bytes)
    requires AeadLengths(c)
    ensures |SealRecord(c, key, sid, n, plain)| == |plain| + 10 + TAG_LEN
  {
    assert |c.seal(key, Nonce(n), Aad(sid, n, |plain|), plain)| == |plain| + TAG_LEN;
  }

  /** What a session of these plaintexts puts on the wire after the handshake. */
  function Tail(c: Primitives, key: Bytes, sid: Bytes, plains: seq<Bytes>): Bytes {
    Stream(c, key, sid, plains) + EncodeFrame(CLOSE)
  }

  /**
   * End to end: a network that only cuts the client's stream makes the server
   * deliver a prefix of the plaintexts, in order, and all of them if it cuts
   * nothing. The client's bytes are those of either client, Python or firmware.
   */
  lemma CutSessionDeliversPrefix(c: Primitives, s: Setup, v: ServerSetup, room: nat, serverRoom: nat,
                                 plains: seq<Bytes>, cut: nat)
    returns (fromServer: Bytes, h: Handshake, r: Service)
    requires Matching(c, s, v) && AeadLengths(c) && AeadOpens(c) && Deliverable(plains)
    requires room >= WireBytes(s.suite) && serverRoom >= WireBytes(s.suite)
    ensures h == Shake(c, s, fromServer, room) && h.Established?
    ensures var tail := Tail(c, h.c2s, h.sid, plains);
            r == Serve(c, v, h.sent + Cut(tail, cut), serverRoom) &&
            r.Served? && r.c2s == h.c2s && r.sid == h.sid && r.sent == fromServer &&
            PrefixDelivery(r.delivery, plains, cut >= |tail|)
  {
    var t := HonestScript(c, s, v);
    CompleteAtTheEnd(c, s, v, t, room, serverRoom);
    fromServer := FromServer(v, t);
    h := Shake(c, s, fromServer, room);
    r := ServedOn(c, s, v, t, serverRoom, Cut(Tail(c, t.c2s, v.sid, plains), cut));
    TailDelivery(c, t.c2s, v.sid, plains, cut);
  }

  lemma ServedOn(c: Primitives, s: Setup, v: ServerSetup, t: Script, serverRoom: nat, more: Bytes) returns (r: Service)
    requires Follows(c, s, v, t) && serverRoom >= WireBytes(s.suite)
    ensures r == Serve(c, v, FromClient(t) + more, serverRoom)
    ensures r == Served(FromServer(v, t), v.sid, t.c2s, Deliver(c, t.c2s, v.sid, -1, more))
  {
    r := Serve(c, v, FromClient(t) + more, serverRoom);
    HandshakeSize(c, s, v, t);
    ServerCompletes(c, s, v, t, more, serverRoom);
  }

  lemma TailDelivery(c: Primitives, key: Bytes, sid: Bytes, plains: seq<Bytes>, cut: nat)
    requires AeadLengths(c) && AeadOpens(c) && Deliverable(plains)
    ensures var all := Tail(c, key, sid, plains);
            PrefixDelivery(Deliver(c, key, sid, -1, Cut(all, cut)), plains, cut >= |all|)
  {
    var fs := RecordFrames(c, key, sid, plains);
    assert fs[0..] == fs && plains[0..] == plains;
    var all := Tail(c, key, sid, plains);
    var d := CutDelivery(c, key, sid, plains, 0, Cut(all, cut), cut >= |all|);
  }
}
