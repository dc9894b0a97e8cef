/**
 * The nine misbehaving servers against the real client: each attacked connection
 * ends with nothing sent but the ClientHello, or exhibits a hash collision between
 * two strings named in advance.
 */
module Rogue {
  import opened Bytes
  import opened Crypto
  import opened KeySchedule
  import opened Messages
  import opened Framing
  import opened Client

  datatype Mode = WrongMac | Impostor | BadType | BadLength | Truncate | Silence | Replay | BadEk | SwapEk

  /** The key file and the PSK the rogue was started with. */
  datatype Keys = Keys(dk: Bytes, psk: Bytes)

  /** Everything drawn at random while one connection is handled. */
  datatype Draw = Draw(sn: Bytes, sid: Bytes, ek1: Bytes, ek2: Bytes, junk: Bytes, impostorDk: Bytes, fallback: Bytes32)

  /** Sizes of the random values; the ephemeral keys are always ML-KEM-768. */
  predicate Drawn(d: Draw) {
    |d.sn| == NONCE_LEN && |d.sid| == SESSION_ID_LEN && |d.ek1| == 1184 && |d.ek2| == 1184 && |d.junk| == 72
  }

  // ---------------------------------------------------------------- rogue_server.py

  /** build_valid_server_hello: the MAC covers `signed`, the payload carries `carried`. */
  function BuildValid(c: Primitives, raw: Bytes, h: ClientHello, ss: Bytes, psk: Bytes, d: Draw, signed: Bytes,
                      carried: Bytes): Option<Bytes>
    requires Params(h.suite).Some?
  {
    var th2 := Transcript2(c, raw, d.sn, d.sid, signed);
    match ServerConfirm(c, Params(h.suite).value.fs, ss, psk, h.nonce, d.sn, th2)
    case None => None
    case Some(k) => Some(d.sn + d.sid + carried + c.hmac(k, th2))
  }

  /** sh[-1] ^= 0x01. */
  function FlipLast(s: Bytes): Bytes
    requires s != []
  {
    s[|s| - 1 := Flipped(s[|s| - 1])]
  }

  function Flipped(x: byte): byte { if x % 2 == 0 then x + 1 else x - 1 }

  predicate FsOnly(m: Mode) { m == BadEk || m == SwapEk }

  /** A malformed ek_E: eight 0xff bytes in front. */
  function Malformed(ek: Bytes): Bytes
    requires |ek| >= 8
  {
    [0xff, 0xff, 0xff, 0xff, 0xff, 0xff, 0xff, 0xff] + ek[8..]
  }

  function Other(c: Primitives, h: ClientHello, d: Draw): Bytes32 {
    var other := c.decaps(d.impostorDk, h.kemCt);
    if other.Some? then other.value else d.fallback
  }

  function Reply(payload: Option<Bytes>): Bytes {
    if payload.None? || |payload.value| > MAX_FRAME then [] else EncodeFrame(Frame(FRAME_SERVER_HELLO, payload.value))
  }

  /** Whether the rogue answers this connection as the real server would. */
  predicate Honest(m: Mode, fs: bool, store: Option<Bytes>) { if FsOnly(m) then !fs else m == Replay && store.None? }

  /** The ServerHello payload in the modes that build one; None where it cannot be computed. */
  function Payload(c: Primitives, m: Mode, k: Keys, d: Draw, raw: Bytes, h: ClientHello): Option<Bytes>
    requires Params(h.suite).Some? && Drawn(d)
  {
    var ss := c.decaps(k.dk, h.kemCt);
    var fs := Params(h.suite).value.fs;
    if m == Impostor then BuildValid(c, raw, h, Other(c, h, d), k.psk, d, [], [])
    else if ss.None? then None
    else if m == BadEk && fs then BuildValid(c, raw, h, ss.value, k.psk, d, Malformed(d.ek1), Malformed(d.ek1))
    else if m == SwapEk && fs then BuildValid(c, raw, h, ss.value, k.psk, d, d.ek1, d.ek2)
    else BuildValid(c, raw, h, ss.value, k.psk, d, [], [])
  }

  /** What the rogue sends after a ClientHello before it closes the connection. */
  function Sends(c: Primitives, m: Mode, k: Keys, d: Draw, store: Option<Bytes>, raw: Bytes, h: ClientHello): Bytes
    requires Params(h.suite).Some? && Drawn(d)
  {
    match m
    case Silence => []
    case BadType => EncodeFrame(Frame(0x42, d.junk))
    case BadLength => EncodeFrame(Frame(FRAME_SERVER_HELLO, d.junk[..71]))
    case Truncate => [FRAME_SERVER_HELLO, 0x00, 0x48] + d.junk[..30]
    case WrongMac =>
      var p := Payload(c, m, k, d, raw, h);
      if p.None? || p.value == [] then [] else Reply(Some(FlipLast(p.value)))
    case Replay =>
      if store.Some? && c.decaps(k.dk, h.kemCt).Some? then Reply(store) else Reply(Payload(c, m, k, d, raw, h))
    case _ => Reply(Payload(c, m, k, d, raw, h))
  }

  /** REPLAY_STORE after the connection. */
  function Stored(c: Primitives, m: Mode, k: Keys, d: Draw, store: Option<Bytes>, raw: Bytes,
                  h: ClientHello): Option<Bytes>
    requires Params(h.suite).Some? && Drawn(d)
  {
    if m == Replay && store.None? then Payload(c, m, k, d, raw, h) else store
  }

  lemma XorZeroIsSame(x: nat)
    ensures Xor(x, 0) == x
  {
    if x != 0 { XorZeroIsSame(x / 2); }
  }

  lemma XorOne(x: byte)
    ensures Xor(x, 1) == Flipped(x)
  {
    XorZeroIsSame(x / 2);
  }

  /** The process that answers connections one after the other; the recorded ServerHello outlives them. */
  class RogueServer {
    const mode: Mode
    const keys: Keys
    var replayStore: Option<Bytes>

    constructor (mode: Mode, keys: Keys, replayStore: Option<Bytes>)
      ensures this.mode == mode && this.keys == keys && this.replayStore == replayStore
    {
      this.mode, this.keys, this.replayStore := mode, keys, replayStore;
    }

    /** What one connection sends and records, given the stream it reads. */
    ghost predicate Handled(c: Primitives, d: Draw, incoming: Bytes, store: Option<Bytes>, sent: Bytes, writable: nat)
      requires Drawn(d)
      reads this
    {
      match ParseFrame(incoming, MAX_FRAME)
      case Bad => sent == [] && replayStore == store
      case Good(f, rest) =>
        var h := Decode(f.payload);
        if f.ftype != FRAME_CLIENT_HELLO || h.None? then sent == [] && replayStore == store
        else
          sent == Cut(Sends(c, mode, keys, d, store, f.payload, h.value), writable) &&
          replayStore == Stored(c, mode, keys, d, store, f.payload, h.value)
    }

    /** handle. */
    method Handle(c: Primitives, d: Draw, sock: Socket)
      requires Drawn(d) && sock.outgoing == []
      modifies this`replayStore, sock
      ensures Handled(c, d, old(sock.incoming), old(replayStore), sock.outgoing, old(sock.writable))
    {
      var first := sock.ReadFrame();
      if first.None? || first.value.ftype != FRAME_CLIENT_HELLO { return; }
      var hello := Parse(first.value.payload);
      if hello.None? { return; }
      if mode == Silence { return; }
      if mode == BadType {
        var _ := sock.WriteFrame(Frame(0x42, d.junk));
      } else if mode == BadLength {
        var _ := sock.WriteFrame(Frame(FRAME_SERVER_HELLO, d.junk[..71]));
      } else if mode == Truncate {
        SendTruncated(d, sock);
      } else if FsOnly(mode) {
        AttackKey(c, d, sock, first.value.payload, hello.value);
      } else {
        AttackMac(c, d, sock, first.value.payload, hello.value);
      }
    }

    /** bad-ek and swap-ek, which leave a mode A handshake alone. */
    method AttackKey(c: Primitives, d: Draw, sock: Socket, raw: Bytes, h: ClientHello)
      requires Params(h.suite).Some? && Drawn(d) && sock.outgoing == [] && FsOnly(mode)
      modifies sock
      ensures sock.outgoing == Cut(Sends(c, mode, keys, d, replayStore, raw, h), old(sock.writable))
    {
      var ss := c.decaps(keys.dk, h.kemCt);
      if ss.None? { return; }
      if !Params(h.suite).value.fs {
        SendHello(BuildValid(c, raw, h, ss.value, keys.psk, d, [], []), sock);
        var _ := sock.ReadFrame();
      } else if mode == BadEk {
        var malformed := Malformed(d.ek1);
        SendHello(BuildValid(c, raw, h, ss.value, keys.psk, d, malformed, malformed), sock);
      } else {
        SendHello(BuildValid(c, raw, h, ss.value, keys.psk, d, d.ek1, d.ek2), sock);
      }
    }

    /** impostor, wrong-mac and replay. */
    method AttackMac(c: Primitives, d: Draw, sock: Socket, raw: Bytes, h: ClientHello)
      requires Params(h.suite).Some? && Drawn(d) && sock.outgoing == [] &&
               (mode == Impostor || mode == WrongMac || mode == Replay)
      modifies this`replayStore, sock
      ensures sock.outgoing == Cut(Sends(c, mode, keys, d, old(replayStore), raw, h), old(sock.writable))
      ensures replayStore == Stored(c, mode, keys, d, old(replayStore), raw, h)
    {
      if mode == Impostor {
        var other := c.decaps(d.impostorDk, h.kemCt);
        var ss: Bytes := if other.Some? then other.value else d.fallback;
        SendHello(BuildValid(c, raw, h, ss, keys.psk, d, [], []), sock);
        return;
      }
      var ss := c.decaps(keys.dk, h.kemCt);
      if ss.None? { return; }
      if mode == Replay && replayStore.Some? {
        SendHello(replayStore, sock);
        return;
      }
      var payload := BuildValid(c, raw, h, ss.value, keys.psk, d, [], []);
      if payload.None? { return; }
      if mode == WrongMac {
        var flipped := FlipInPlace(payload.value);
        SendHello(Some(flipped), sock);
      } else {
        replayStore := payload;
        SendHello(payload, sock);
      }
    }

    /** Writes a ServerHello, unless building it raised. */
    method SendHello(payload: Option<Bytes>, sock: Socket)
      requires sock.outgoing == []
      modifies sock`outgoing, sock`writable
      ensures sock.outgoing == Cut(Reply(payload), old(sock.writable))
    {
      if payload.Some? { var _ := sock.WriteFrame(Frame(FRAME_SERVER_HELLO, payload.value)); }
    }

    /** Announces 72 bytes, sends 30. */
    method SendTruncated(d: Draw, sock: Socket)
      requires Drawn(d) && sock.outgoing == []
      modifies sock`outgoing, sock`writable
      ensures sock.outgoing == Cut([FRAME_SERVER_HELLO, 0x00, 0x48] + d.junk[..30], old(sock.writable))
    {
      var ok := sock.SendAll([FRAME_SERVER_HELLO, 0x00, 0x48]);
      if ok { var _ := sock.SendAll(d.junk[..30]); }
    }

    method FlipInPlace(payload: Bytes) returns (r: Bytes)
      requires payload != []
      ensures r == FlipLast(payload)
    {
      var sh := new byte[|payload|](i requires 0 <= i < |payload| => payload[i]);
      XorOne(sh[sh.Length - 1]);
      assert sh[..] == payload;
      sh[sh.Length - 1] := Xor(sh[sh.Length - 1], 1);
      r := sh[..];
    }
  }

  // ---------------------------------------------------------------- the client refuses

  /** The client run has sent its hello and gets exactly the rogue's bytes. */
  ghost predicate Facing(c: Primitives, s: Setup, raw: Bytes, h: ClientHello, ss: Bytes32, writable: nat) {
    Params(s.suite).Some? && Open(c, s) == Hello(raw, ss) && WellSized(h) && raw == Encode(h) && h.suite == s.suite &&
    h.nonce == s.nonce && 3 + |raw| <= writable && |s.psk| == PSK_LEN
  }

  /** Handshake failed and nothing but the ClientHello was sent: no encapsulation, no Finished, no Data. */
  predicate RefusedBy(c: Primitives, s: Setup, raw: Bytes, incoming: Bytes, writable: nat)
    requires Params(s.suite).Some?
  {
    Shake(c, s, incoming, writable) == Failed(EncodeFrame(Frame(FRAME_CLIENT_HELLO, raw)))
  }

  /** The rogue's decapsulation key is the pinned one and its PSK is this device's. */
  predicate Holds(c: Primitives, k: Keys, s: Setup, h: ClientHello, ss: Bytes32) {
    k.psk == s.psk && c.decaps(k.dk, h.kemCt) == Some(ss)
  }

  lemma HelloFits(c: Primitives, s: Setup, raw: Bytes, h: ClientHello, ss: Bytes32, incoming: Bytes, writable: nat)
    requires Facing(c, s, raw, h, ss, writable)
    ensures Shake(c, s, incoming, writable) == AwaitReply(c, s, raw, ss, incoming, writable)
  {
    EncodedHead(h);
    ShakeHello(c, s, incoming, writable);
  }

  /** Unless a well-formed ServerHello is answered, the client stops. */
  lemma FrameRefused(c: Primitives, s: Setup, raw: Bytes, h: ClientHello, ss: Bytes32, f: Frame, writable: nat)
    requires Facing(c, s, raw, h, ss, writable) && |f.payload| <= MAX_FRAME
    requires f.ftype == FRAME_SERVER_HELLO && |f.payload| == ServerHelloLen(Params(s.suite).value) ==>
               !Respond(c, s, raw, ss, Split(Params(s.suite).value, f.payload), Params(s.suite).value.fs).Answer?
    ensures RefusedBy(c, s, raw, EncodeFrame(f), writable)
  {
    HelloFits(c, s, raw, h, ss, EncodeFrame(f), writable);
    assert EncodeFrame(f) + [] == EncodeFrame(f);
    FrameRoundTrip(f, [], MAX_FRAME);
  }

  lemma NoFrameRefused(c: Primitives, s: Setup, raw: Bytes, h: ClientHello, ss: Bytes32, incoming: Bytes, writable: nat)
    requires Facing(c, s, raw, h, ss, writable) && ParseFrame(incoming, MAX_FRAME).Bad?
    ensures RefusedBy(c, s, raw, incoming, writable)
  {
    HelloFits(c, s, raw, h, ss, incoming, writable);
  }

  /** The client's own server confirmation key for an offered server nonce and transcript. */
  function OwnKey(c: Primitives, s: Setup, ss: Bytes, sn: Bytes, th2: Bytes): Bytes {
    DeriveStage1(c, ss, s.psk, s.nonce, sn, th2)
  }

  lemma OwnKeyIsConfirm(c: Primitives, s: Setup, ss: Bytes, sn: Bytes, th2: Bytes, fs: bool)
    requires |s.psk| == PSK_LEN
    ensures ServerConfirm(c, fs, ss, s.psk, s.nonce, sn, th2) == Some(OwnKey(c, s, ss, sn, th2))
  {
  }

  /** A MAC made over another TH2 preimage passes only through a collision of the two preimages or of the two MACs. */
  lemma ForeignMacRefused(c: Primitives, s: Setup, raw: Bytes, ss: Bytes, o: Offer, fs: bool, k: Bytes, pre: Bytes)
    requires |s.psk| == PSK_LEN && o.mac == c.hmac(k, c.sha256(pre)) && pre != raw + o.sn + o.sid + o.ek
    ensures var mine := raw + o.sn + o.sid + o.ek;
            Respond(c, s, raw, ss, o, fs).Answer? ==>
              HashCollision(c, pre, mine) ||
              MacCollision(c, k, c.sha256(pre), OwnKey(c, s, ss, o.sn, c.sha256(mine)), c.sha256(mine))
  {
    OwnKeyIsConfirm(c, s, ss, o.sn, Transcript2(c, raw, o.sn, o.sid, o.ek), fs);
  }

  /** Queries of the client and of a rogue with another shared secret or PSK, of which one pair would collide. */
  predicate ForeignSecret(c: Primitives, other: Bytes, psk: Bytes, s: Setup, raw: Bytes, ss: Bytes, sn: Bytes,
                          sid: Bytes) {
    var th2 := Transcript2(c, raw, sn, sid, []);
    var salt, info := s.nonce + sn, LABEL_SRV_CONFIRM + th2 + [1];
    MacCollision(c, salt, other + psk, salt, ss + s.psk) ||
    MacCollision(c, c.hmac(salt, other + psk), info, c.hmac(salt, ss + s.psk), info) ||
    MacCollision(c, DeriveStage1(c, other, psk, s.nonce, sn, th2), th2, OwnKey(c, s, ss, sn, th2), th2)
  }

  /** A MAC made with another shared secret or PSK passes only through a collision at one of the three HMACs. */
  lemma ForeignSecretRefused(c: Primitives, s: Setup, raw: Bytes, ss: Bytes32, other: Bytes32, psk: Bytes, o: Offer,
                             fs: bool)
    requires |s.psk| == PSK_LEN && (other, psk) != (ss, s.psk) && o.ek == []
    requires var th2 := Transcript2(c, raw, o.sn, o.sid, []);
             o.mac == c.hmac(DeriveStage1(c, other, psk, s.nonce, o.sn, th2), th2)
    ensures Respond(c, s, raw, ss, o, fs).Answer? ==> ForeignSecret(c, other, psk, s, raw, ss, o.sn, o.sid)
  {
    var th2 := Transcript2(c, raw, o.sn, o.sid, []);
    OwnKeyIsConfirm(c, s, ss, o.sn, th2, fs);
    ExpandOneBlock(c, Prk1(c, ss, s.psk, s.nonce, o.sn), LABEL_SRV_CONFIRM + th2);
    ExpandOneBlock(c, Prk1(c, other, psk, s.nonce, o.sn), LABEL_SRV_CONFIRM + th2);
    assert (other + psk)[..32] == other && (ss + s.psk)[..32] == ss;
    assert (other + psk)[32..] == psk && (ss + s.psk)[32..] == s.psk;
  }

  // ---------------------------------------------------------------- modulus check

  const Q: nat := 3329

  /** The 12-bit coefficients packed in three bytes, ByteDecode of FIPS 203 with d = 12. */
  function Coefficients(b0: byte, b1: byte, b2: byte): (nat, nat) { (b0 + 256 * (b1 % 16), b1 / 16 + 16 * b2) }

  /** The check of FIPS 203 section 7.2 on the polynomial part, all but the last 32 bytes. */
  ghost predicate Reduced(ek: Bytes) {
    forall k: nat :: 3 * k + 3 <= |ek| - 32 ==>
      Coefficients(ek[3 * k], ek[3 * k + 1], ek[3 * k + 2]).0 < Q &&
      Coefficients(ek[3 * k], ek[3 * k + 1], ek[3 * k + 2]).1 < Q
  }

  /** Encapsulation refuses every key whose coefficients are not reduced. */
  ghost predicate ChecksModulus(c: Primitives) { forall ek, r :: c.encaps(ek, r).Encapsulated? ==> Reduced(ek) }

  lemma MalformedIsNotReduced(ek: Bytes)
    requires |ek| >= 35
    ensures !Reduced(Malformed(ek))
  {
    var m := Malformed(ek);
    assert m[3 * 0] == 0xff && m[3 * 0 + 1] == 0xff && m[3 * 0 + 2] == 0xff;
    assert Coefficients(0xff, 0xff, 0xff).0 == 4095;
  }

  // ---------------------------------------------------------------- mode by mode

  /** The confirmation key the rogue computes from a shared secret. */
  function RogueKey(c: Primitives, raw: Bytes, h: ClientHello, ss: Bytes, psk: Bytes, d: Draw, signed: Bytes): Bytes {
    DeriveStage1(c, ss, psk, h.nonce, d.sn, Transcript2(c, raw, d.sn, d.sid, signed))
  }

  /** What a payload that was built consists of, whatever the PSK. */
  lemma BuiltPayload(c: Primitives, raw: Bytes, h: ClientHello, ss: Bytes, psk: Bytes, d: Draw, signed: Bytes,
                     carried: Bytes, p: Bytes)
    returns (mac: Bytes32)
    requires Params(h.suite).Some? && BuildValid(c, raw, h, ss, psk, d, signed, carried) == Some(p)
    ensures mac == c.hmac(RogueKey(c, raw, h, ss, psk, d, signed), c.sha256(raw + d.sn + d.sid + signed))
    ensures p == d.sn + d.sid + carried + mac
  {
    mac := c.hmac(RogueKey(c, raw, h, ss, psk, d, signed), Transcript2(c, raw, d.sn, d.sid, signed));
  }

  /** A ServerHello that gets no answer is refused, however much of it arrives. */
  lemma HelloRefused(c: Primitives, s: Setup, raw: Bytes, h: ClientHello, ss: Bytes32, sn: Bytes, sid: Bytes, ek: Bytes,
                     mac: Bytes, n: nat, writable: nat)
    requires Facing(c, s, raw, h, ss, writable) && |sn| == 32 && |sid| == 8 && |mac| == 32
    requires var p := Params(s.suite).value;
             |ek| == (if p.fs then p.ek else 0) ==> !Respond(c, s, raw, ss, Offer(sn, sid, ek, mac), p.fs).Answer?
    ensures RefusedBy(c, s, raw, Cut(Reply(Some(sn + sid + ek + mac)), n), writable)
  {
    var p := Params(s.suite).value;
    if |ek| == (if p.fs then p.ek else 0) { SplitBuilt(p, sn, sid, ek, mac); }
    CutRefused(c, s, raw, h, ss, Frame(FRAME_SERVER_HELLO, sn + sid + ek + mac), n, writable);
  }

  lemma CutRefused(c: Primitives, s: Setup, raw: Bytes, h: ClientHello, ss: Bytes32, f: Frame, n: nat, writable: nat)
    requires Facing(c, s, raw, h, ss, writable)
    requires f.ftype == FRAME_SERVER_HELLO && |f.payload| == ServerHelloLen(Params(s.suite).value) ==>
               !Respond(c, s, raw, ss, Split(Params(s.suite).value, f.payload), Params(s.suite).value.fs).Answer?
    ensures |f.payload| <= MAX_FRAME ==> RefusedBy(c, s, raw, Cut(EncodeFrame(f), n), writable)
    ensures |f.payload| > MAX_FRAME ==> RefusedBy(c, s, raw, [], writable)
  {
    NoFrameRefused(c, s, raw, h, ss, [], writable);
    if |f.payload| <= MAX_FRAME {
      if n < |EncodeFrame(f)| {
        CutFrameIsBad(f, [], n, MAX_FRAME);
        assert EncodeFrame(f) + [] == EncodeFrame(f);
        NoFrameRefused(c, s, raw, h, ss, EncodeFrame(f)[..n], writable);
      } else {
        FrameRefused(c, s, raw, h, ss, f, writable);
      }
    }
  }

  /** Nothing, a wrong type, a wrong length and a truncated frame: no key is involved. */
  lemma MalformedAnswerRefused(c: Primitives, m: Mode, k: Keys, d: Draw, store: Option<Bytes>, s: Setup, raw: Bytes,
                               h: ClientHello, ss: Bytes32, n: nat, writable: nat)
    requires Facing(c, s, raw, h, ss, writable) && Drawn(d)
    requires m == Silence || m == BadType || m == BadLength || m == Truncate
    ensures RefusedBy(c, s, raw, Cut(Sends(c, m, k, d, store, raw, h), n), writable)
  {
    match m
    case Silence => NoFrameRefused(c, s, raw, h, ss, [], writable);
    case BadType => CutRefused(c, s, raw, h, ss, Frame(0x42, d.junk), n, writable);
    case BadLength => CutRefused(c, s, raw, h, ss, Frame(FRAME_SERVER_HELLO, d.junk[..71]), n, writable);
    case Truncate =>
      var sent := Cut([FRAME_SERVER_HELLO, 0x00, 0x48] + d.junk[..30], n);
      assert |sent| >= 3 ==> sent[1] == 0x00 && sent[2] == 0x48;
      NoFrameRefused(c, s, raw, h, ss, sent, writable);
  }

  /** What the rogue's key opens the client's ciphertext to. */
  function Opened(c: Primitives, k: Keys, h: ClientHello): Option<Bytes32> { c.decaps(k.dk, h.kemCt) }

  /** A rogue that cannot open the ciphertext or use its PSK sends nothing. */
  lemma NothingSentRefused(c: Primitives, s: Setup, raw: Bytes, h: ClientHello, ss: Bytes32, n: nat, writable: nat)
    requires Facing(c, s, raw, h, ss, writable)
    ensures RefusedBy(c, s, raw, Cut(Reply(None), n), writable) && RefusedBy(c, s, raw, Cut([], n), writable)
  {
    NoFrameRefused(c, s, raw, h, ss, [], writable);
  }

  lemma FlippedMac(head: Bytes, mac: Bytes)
    requires mac != []
    ensures FlipLast(head + mac) == head + FlipLast(mac) && FlipLast(mac) != mac
  {
    assert FlipLast(mac)[|mac| - 1] != mac[|mac| - 1];
  }

  /** The flipped MAC would have to be the client's own, under another key than the rogue's. */
  predicate FlippedMatches(c: Primitives, k: Keys, d: Draw, s: Setup, raw: Bytes, h: ClientHello, ss: Bytes) {
    var th2 := Transcript2(c, raw, d.sn, d.sid, []);
    Opened(c, k, h).Some? &&
    var key, own := RogueKey(c, raw, h, Opened(c, k, h).value, k.psk, d, []), OwnKey(c, s, ss, d.sn, th2);
    key != own && FlipLast(c.hmac(key, th2)) == c.hmac(own, th2)
  }

  /**
   * One flipped bit: in mode B the length is already wrong. In mode A the MAC no
   * longer matches, outright if the rogue holds the client's own secrets.
   */
  lemma WrongMacRefused(c: Primitives, k: Keys, d: Draw, store: Option<Bytes>, s: Setup, raw: Bytes, h: ClientHello,
                        ss: Bytes32, n: nat, writable: nat)
    requires Facing(c, s, raw, h, ss, writable) && Drawn(d)
    ensures RefusedBy(c, s, raw, Cut(Sends(c, WrongMac, k, d, store, raw, h), n), writable) ||
            FlippedMatches(c, k, d, s, raw, h, ss)
    ensures Holds(c, k, s, h, ss) ==> !FlippedMatches(c, k, d, s, raw, h, ss)
  {
    NothingSentRefused(c, s, raw, h, ss, n, writable);
    var built := SendsFlipped(c, k, d, store, raw, h);
    if built.Some? { FlippedRefused(c, k, d, s, raw, h, ss, built.value, n, writable); }
  }

  /** What is flipped, if anything is built. */
  lemma SendsFlipped(c: Primitives, k: Keys, d: Draw, store: Option<Bytes>, raw: Bytes, h: ClientHello)
    returns (built: Option<Bytes>)
    requires Params(h.suite).Some? && Drawn(d)
    ensures Sends(c, WrongMac, k, d, store, raw, h) ==
            if built.None? || built.value == [] then [] else Reply(Some(FlipLast(built.value)))
    ensures built.Some? ==>
              Opened(c, k, h).Some? && BuildValid(c, raw, h, Opened(c, k, h).value, k.psk, d, [], []) == built
  {
    built := Payload(c, WrongMac, k, d, raw, h);
  }

  lemma FlippedRefused(c: Primitives, k: Keys, d: Draw, s: Setup, raw: Bytes, h: ClientHello, ss: Bytes32, p: Bytes,
                       n: nat, writable: nat)
    requires Facing(c, s, raw, h, ss, writable) && Drawn(d) && Opened(c, k, h).Some?
    requires BuildValid(c, raw, h, Opened(c, k, h).value, k.psk, d, [], []) == Some(p)
    ensures p != []
    ensures RefusedBy(c, s, raw, Cut(Reply(Some(FlipLast(p))), n), writable) || FlippedMatches(c, k, d, s, raw, h, ss)
  {
    var th2 := Transcript2(c, raw, d.sn, d.sid, []);
    var mac := BuiltPayload(c, raw, h, Opened(c, k, h).value, k.psk, d, [], [], p);
    FlippedMac(d.sn + d.sid + [], mac);
    OwnKeyIsConfirm(c, s, ss, d.sn, th2, Params(s.suite).value.fs);
    if !FlippedMatches(c, k, d, s, raw, h, ss) {
      HelloRefused(c, s, raw, h, ss, d.sn, d.sid, [], FlipLast(mac), n, writable);
    }
  }

  lemma SendsKey(c: Primitives, m: Mode, k: Keys, d: Draw, store: Option<Bytes>, raw: Bytes, h: ClientHello,
                 signed: Bytes, carried: Bytes)
    returns (p: Bytes)
    requires Params(h.suite).Some? && Params(h.suite).value.fs && Drawn(d) && Opened(c, k, h).Some?
    requires (m == BadEk && signed == carried == Malformed(d.ek1)) ||
             (m == SwapEk && signed == d.ek1 && carried == d.ek2)
    ensures Sends(c, m, k, d, store, raw, h) == Reply(Some(p))
    ensures BuildValid(c, raw, h, Opened(c, k, h).value, k.psk, d, signed, carried) == Some(p)
  {
    p := BuildValid(c, raw, h, Opened(c, k, h).value, k.psk, d, signed, carried).value;
  }

  /** A correctly MACed malformed ek_E: only the modulus check stands in the way. */
  lemma BadEkRefused(c: Primitives, k: Keys, d: Draw, store: Option<Bytes>, s: Setup, raw: Bytes, h: ClientHello,
                     ss: Bytes32, n: nat, writable: nat)
    requires Facing(c, s, raw, h, ss, writable) && Drawn(d)
    requires ChecksModulus(c) && Params(s.suite).value.fs
    ensures RefusedBy(c, s, raw, Cut(Sends(c, BadEk, k, d, store, raw, h), n), writable)
  {
    NothingSentRefused(c, s, raw, h, ss, n, writable);
    if Opened(c, k, h).Some? {
      var ek := Malformed(d.ek1);
      var p := SendsKey(c, BadEk, k, d, store, raw, h, ek, ek);
      var mac := BuiltPayload(c, raw, h, Opened(c, k, h).value, k.psk, d, ek, ek, p);
      MalformedIsNotReduced(d.ek1);
      assert c.encaps(ek, s.coinsEph).Refused?;
      HelloRefused(c, s, raw, h, ss, d.sn, d.sid, ek, mac, n, writable);
    }
  }

  /** The two strings whose hashes, or the two HMAC queries whose results, would have to coincide. */
  predicate ForeignMac(c: Primitives, k: Bytes, pre: Bytes, s: Setup, raw: Bytes, ss: Bytes, sn: Bytes, sid: Bytes,
                       ek: Bytes) {
    var mine := raw + sn + sid + ek;
    HashCollision(c, pre, mine) ||
    MacCollision(c, k, c.sha256(pre), OwnKey(c, s, ss, sn, c.sha256(mine)), c.sha256(mine))
  }

  /** The coincidence a substituted ek_E would need: the rogue's MAC over one key is the client's over the other. */
  predicate Swapped(c: Primitives, k: Keys, d: Draw, s: Setup, raw: Bytes, h: ClientHello, ss: Bytes) {
    Opened(c, k, h).Some? &&
    ForeignMac(c, RogueKey(c, raw, h, Opened(c, k, h).value, k.psk, d, d.ek1), raw + d.sn + d.sid + d.ek1,
               s, raw, ss, d.sn, d.sid, d.ek2)
  }

  /** Another ek_E on the wire than under the MAC. */
  lemma SwapEkRefused(c: Primitives, k: Keys, d: Draw, store: Option<Bytes>, s: Setup, raw: Bytes, h: ClientHello,
                      ss: Bytes32, n: nat, writable: nat)
    requires Facing(c, s, raw, h, ss, writable) && Drawn(d)
    requires d.ek1 != d.ek2 && Params(s.suite).value.fs
    ensures RefusedBy(c, s, raw, Cut(Sends(c, SwapEk, k, d, store, raw, h), n), writable) ||
            Swapped(c, k, d, s, raw, h, ss)
  {
    NothingSentRefused(c, s, raw, h, ss, n, writable);
    if Opened(c, k, h).Some? && !Swapped(c, k, d, s, raw, h, ss) {
      var x := Opened(c, k, h).value;
      var p := SendsKey(c, SwapEk, k, d, store, raw, h, d.ek1, d.ek2);
      var mac := BuiltPayload(c, raw, h, x, k.psk, d, d.ek1, d.ek2, p);
      SameHead(raw + d.sn + d.sid, d.ek1, d.ek2);
      ForeignMacRefused(c, s, raw, ss, Offer(d.sn, d.sid, d.ek2, mac), true, RogueKey(c, raw, h, x, k.psk, d, d.ek1),
                        raw + d.sn + d.sid + d.ek1);
      HelloRefused(c, s, raw, h, ss, d.sn, d.sid, d.ek2, mac, n, writable);
    }
  }

  lemma SameHead(head: Bytes, a: Bytes, b: Bytes)
    ensures head + a == head + b <==> a == b
  {
    assert (head + a)[|head|..] == a && (head + b)[|head|..] == b;
  }

  lemma SameTail(a: Bytes, b: Bytes, tail: Bytes)
    ensures a + tail == b + tail <==> a == b
  {
    if a + tail == b + tail {
      assert |a| == |b|;
      assert (a + tail)[..|a|] == a && (b + tail)[..|a|] == b;
    }
  }

  /** A key pair the client has not pinned. */
  lemma ImpostorRefused(c: Primitives, k: Keys, d: Draw, store: Option<Bytes>, s: Setup, raw: Bytes, h: ClientHello,
                        ss: Bytes32, n: nat, writable: nat)
    requires Facing(c, s, raw, h, ss, writable) && Drawn(d)
    requires (Other(c, h, d), k.psk) != (ss, s.psk)
    ensures RefusedBy(c, s, raw, Cut(Sends(c, Impostor, k, d, store, raw, h), n), writable) ||
            ForeignSecret(c, Other(c, h, d), k.psk, s, raw, ss, d.sn, d.sid)
  {
    var other := Other(c, h, d);
    NothingSentRefused(c, s, raw, h, ss, n, writable);
    var built := BuildValid(c, raw, h, other, k.psk, d, [], []);
    if built.Some? && !ForeignSecret(c, other, k.psk, s, raw, ss, d.sn, d.sid) {
      var mac := BuiltPayload(c, raw, h, other, k.psk, d, [], [], built.value);
      ForeignSecretRefused(c, s, raw, ss, other, k.psk, Offer(d.sn, d.sid, [], mac), Params(s.suite).value.fs);
      HelloRefused(c, s, raw, h, ss, d.sn, d.sid, [], mac, n, writable);
    }
  }

  // ---------------------------------------------------------------- what each mode really sends

  /** A client with this shared secret gets past the MAC check on this offer. */
  predicate PassesMac(c: Primitives, s: Setup, raw: Bytes, ss: Bytes, o: Offer, fs: bool) {
    var r := Respond(c, s, raw, ss, o, fs);
    r != BadServerMac && r != BadPsk
  }

  lemma PassesOwnMac(c: Primitives, s: Setup, raw: Bytes, h: ClientHello, ss: Bytes, d: Draw, signed: Bytes, mac: Bytes,
                     fs: bool)
    requires |s.psk| == PSK_LEN && h.nonce == s.nonce
    requires mac == c.hmac(RogueKey(c, raw, h, ss, s.psk, d, signed), c.sha256(raw + d.sn + d.sid + signed))
    ensures PassesMac(c, s, raw, ss, Offer(d.sn, d.sid, signed, mac), fs)
  {
    OwnKeyIsConfirm(c, s, ss, d.sn, Transcript2(c, raw, d.sn, d.sid, signed), fs);
  }

  /**
   * The attacks are no weaker than their names say: a rogue that holds the client's
   * secrets sends a ServerHello one change away from one whose MAC the client takes.
   * Flip the bit back, put the signed ek_E in place of the other, or hold the
   * impostor's shared secret, and it passes; the malformed ek_E passes as it is.
   */
  lemma OneChangeFromHonest(c: Primitives, m: Mode, k: Keys, d: Draw, store: Option<Bytes>, s: Setup, raw: Bytes,
                            h: ClientHello, ss: Bytes32)
    returns (mac: Bytes32)
    requires Params(h.suite).Some? && h.suite == s.suite && h.nonce == s.nonce && |s.psk| == PSK_LEN && Drawn(d)
    requires Holds(c, k, s, h, ss)
    requires m == WrongMac || m == Impostor || (FsOnly(m) && Params(s.suite).value.fs)
    ensures var sent, fs, head := Sends(c, m, k, d, store, raw, h), Params(s.suite).value.fs, d.sn + d.sid;
            match m
            case WrongMac =>
              sent == Reply(Some(head + FlipLast(mac))) && PassesMac(c, s, raw, ss, Offer(d.sn, d.sid, [], mac), fs)
            case Impostor =>
              sent == Reply(Some(head + mac)) &&
              PassesMac(c, s, raw, Other(c, h, d), Offer(d.sn, d.sid, [], mac), fs)
            case BadEk =>
              sent == Reply(Some(head + Malformed(d.ek1) + mac)) &&
              PassesMac(c, s, raw, ss, Offer(d.sn, d.sid, Malformed(d.ek1), mac), fs)
            case SwapEk =>
              sent == Reply(Some(head + d.ek2 + mac)) &&
              PassesMac(c, s, raw, ss, Offer(d.sn, d.sid, d.ek1, mac), fs)
            case _ => true
  {
    var secret := if m == Impostor then Other(c, h, d) else ss;
    var signed := if m == BadEk then Malformed(d.ek1) else if m == SwapEk then d.ek1 else [];
    var carried := if m == SwapEk then d.ek2 else signed;
    var p := BuildValid(c, raw, h, secret, k.psk, d, signed, carried).value;
    mac := BuiltPayload(c, raw, h, secret, k.psk, d, signed, carried, p);
    assert d.sn + d.sid + [] == d.sn + d.sid;
    FlippedMac(d.sn + d.sid, mac);
    PassesOwnMac(c, s, raw, h, secret, d, signed, mac, Params(s.suite).value.fs);
  }

  /** The four answers that involve no key, byte for byte. */
  lemma MalformedAnswers(c: Primitives, k: Keys, d: Draw, store: Option<Bytes>, raw: Bytes, h: ClientHello)
    requires Params(h.suite).Some? && Drawn(d)
    ensures Sends(c, Silence, k, d, store, raw, h) == []
    ensures Sends(c, BadType, k, d, store, raw, h) == [0x42, 0, 72] + d.junk
    ensures Sends(c, BadLength, k, d, store, raw, h) == [0x02, 0, 71] + d.junk[..71]
    ensures Sends(c, Truncate, k, d, store, raw, h) == [0x02, 0, 72] + d.junk[..30]
  {
  }

  /** Replay mode records what it sends on its first connection and sends those very bytes on every later one. */
  lemma ReplaySendsAgain(c: Primitives, k: Keys, d: Draw, raw: Bytes, h: ClientHello, k': Keys, d': Draw, raw': Bytes,
                         h': ClientHello)
    requires Params(h.suite).Some? && Params(h'.suite).Some? && Drawn(d) && Drawn(d')
    ensures var store := Stored(c, Replay, k, d, None, raw, h);
            Sends(c, Replay, k, d, None, raw, h) == Reply(store) &&
            (store.Some? && Opened(c, k', h').Some? ==>
               Sends(c, Replay, k', d', store, raw', h') == Reply(store) &&
               Stored(c, Replay, k', d', store, raw', h') == store)
  {
  }

  // ---------------------------------------------------------------- replay over earlier connections

  /** One earlier connection to a rogue in replay mode. */
  datatype Visit = Visit(keys: Keys, draw: Draw, raw: Bytes, h: ClientHello)

  predicate Visited(v: Visit) { WellSized(v.h) && v.raw == Encode(v.h) && Drawn(v.draw) }

  /** REPLAY_STORE after these connections, starting from no file. */
  function StoreAfter(c: Primitives, past: seq<Visit>): Option<Bytes>
    requires forall v <- past :: Visited(v)
  {
    if past == [] then None
    else
      var v := past[|past| - 1];
      assert v in past && Visited(v);
      Stored(c, Replay, v.keys, v.draw, StoreAfter(c, past[..|past| - 1]), v.raw, v.h)
  }

  /** The stored ServerHello was built in this connection. */
  predicate RecordedIn(c: Primitives, v: Visit, p: Bytes)
    requires Visited(v)
  {
    Payload(c, Replay, v.keys, v.draw, v.raw, v.h) == Some(p)
  }

  lemma {:induction false} StoreOrigin(c: Primitives, past: seq<Visit>)
    requires forall v <- past :: Visited(v)
    ensures StoreAfter(c, past).Some? ==>
              exists i: nat :: i < |past| && RecordedIn(c, past[i], StoreAfter(c, past).value)
  {
    if past != [] {
      StoreOrigin(c, past[..|past| - 1]);
      if StoreAfter(c, past).Some? && StoreAfter(c, past[..|past| - 1]).None? {
        assert RecordedIn(c, past[|past| - 1], StoreAfter(c, past).value);
      }
    }
  }

  /** The coincidence a successful replay of the ServerHello from connection v would exhibit. */
  predicate Replayed(c: Primitives, v: Visit, s: Setup, raw: Bytes, ss: Bytes)
    requires Visited(v)
  {
    var d := v.draw;
    c.decaps(v.keys.dk, v.h.kemCt).Some? &&
    ForeignMac(c, RogueKey(c, v.raw, v.h, c.decaps(v.keys.dk, v.h.kemCt).value, v.keys.psk, d, []),
               v.raw + d.sn + d.sid + [], s, raw, ss, d.sn, d.sid, [])
  }

  lemma OtherPreimage(a: Bytes, b: Bytes, sn: Bytes, sid: Bytes)
    ensures a + sn + sid + [] == b + sn + sid + [] <==> a == b
  {
    SameTail(a, b, sn + sid);
    assert a + sn + sid + [] == a + (sn + sid) && b + sn + sid + [] == b + (sn + sid);
  }

  lemma ReplayOfRefused(c: Primitives, v: Visit, p: Bytes, s: Setup, raw: Bytes, h: ClientHello, ss: Bytes32, n: nat,
                        writable: nat)
    requires Facing(c, s, raw, h, ss, writable) && Visited(v) && v.h.nonce != s.nonce && RecordedIn(c, v, p)
    ensures RefusedBy(c, s, raw, Cut(Reply(Some(p)), n), writable) || Replayed(c, v, s, raw, ss)
  {
    var d := v.draw;
    var ssv := c.decaps(v.keys.dk, v.h.kemCt).value;
    var key, pre := RogueKey(c, v.raw, v.h, ssv, v.keys.psk, d, []), v.raw + d.sn + d.sid + [];
    var mac := BuiltPayload(c, v.raw, v.h, ssv, v.keys.psk, d, [], [], p);
    HelloFields(h);
    HelloFields(v.h);
    OtherPreimage(v.raw, raw, d.sn, d.sid);
    ForeignMacRefused(c, s, raw, ss, Offer(d.sn, d.sid, [], mac), Params(s.suite).value.fs, key, pre);
    if !Replayed(c, v, s, raw, ss) {
      HelloRefused(c, s, raw, h, ss, d.sn, d.sid, [], mac, n, writable);
    }
  }

  // ---------------------------------------------------------------- all nine

  /** The coincidence that alone could let the attack of this mode through. */
  ghost predicate Coincidence(c: Primitives, m: Mode, k: Keys, d: Draw, past: seq<Visit>, s: Setup, raw: Bytes,
                              h: ClientHello, ss: Bytes32)
    requires forall v <- past :: Visited(v)
  {
    match m
    case WrongMac => FlippedMatches(c, k, d, s, raw, h, ss)
    case SwapEk => Swapped(c, k, d, s, raw, h, ss)
    case Impostor => ForeignSecret(c, Other(c, h, d), k.psk, s, raw, ss, d.sn, d.sid)
    case Replay => exists i: nat :: i < |past| && Replayed(c, past[i], s, raw, ss)
    case _ => false
  }

  /** The random draws do not repeat: two ephemeral keys, two nonces, two pairs of secrets differ. */
  predicate FreshDraws(c: Primitives, m: Mode, k: Keys, d: Draw, past: seq<Visit>, s: Setup, h: ClientHello,
                       ss: Bytes32) {
    (m == SwapEk ==> d.ek1 != d.ek2) && (m == Impostor ==> (Other(c, h, d), k.psk) != (ss, s.psk)) &&
    (m == Replay ==> forall v <- past :: v.h.nonce != s.nonce)
  }

  /**
   * Every attacked connection of every mode, whichever key and PSK the rogue holds
   * and whichever device connects, after any earlier connections and however much
   * of the answer arrives, ends with nothing sent but the ClientHello, or with the
   * coincidence of hash values named by Coincidence.
   */
  lemma EveryModeIsRefused(c: Primitives, m: Mode, k: Keys, d: Draw, past: seq<Visit>, s: Setup, raw: Bytes,
                           h: ClientHello, ss: Bytes32, n: nat, writable: nat)
    requires (forall v <- past :: Visited(v)) && Drawn(d) && ChecksModulus(c)
    requires Facing(c, s, raw, h, ss, writable) && FreshDraws(c, m, k, d, past, s, h, ss)
    requires !Honest(m, Params(s.suite).value.fs, StoreAfter(c, past))
    ensures RefusedBy(c, s, raw, Cut(Sends(c, m, k, d, StoreAfter(c, past), raw, h), n), writable) ||
            Coincidence(c, m, k, d, past, s, raw, h, ss)
  {
    var store := StoreAfter(c, past);
    match m
    case WrongMac => WrongMacRefused(c, k, d, store, s, raw, h, ss, n, writable);
    case Impostor => ImpostorRefused(c, k, d, store, s, raw, h, ss, n, writable);
    case BadEk => BadEkRefused(c, k, d, store, s, raw, h, ss, n, writable);
    case SwapEk => SwapEkRefused(c, k, d, store, s, raw, h, ss, n, writable);
    case Replay =>
      StoreOrigin(c, past);
      var i: nat :| i < |past| && RecordedIn(c, past[i], store.value);
      ReplayOfRefused(c, past[i], store.value, s, raw, h, ss, n, writable);
    case _ => MalformedAnswerRefused(c, m, k, d, store, s, raw, h, ss, n, writable);
  }

  /**
   * A connection that is not attacked succeeds exactly in mode A. The first
   * connection of replay mode answers a mode B hello with 72 bytes as well, so it
   * is refused although the rogue reports it as served correctly.
   */
  lemma UnattackedSucceedsInModeA(c: Primitives, m: Mode, k: Keys, d: Draw, store: Option<Bytes>, s: Setup, raw: Bytes,
                                  h: ClientHello, ss: Bytes32, writable: nat)
    requires Facing(c, s, raw, h, ss, writable) && Drawn(d) && Holds(c, k, s, h, ss)
    requires Honest(m, Params(s.suite).value.fs, store) && 3 + |raw| + 3 + 32 <= writable
    ensures Shake(c, s, Sends(c, m, k, d, store, raw, h), writable).Established? <==> !Params(s.suite).value.fs
  {
    var p := Params(s.suite).value;
    var th2 := Transcript2(c, raw, d.sn, d.sid, []);
    var mac := BuiltPayload(c, raw, h, ss, k.psk, d, [], [], BuildValid(c, raw, h, ss, k.psk, d, [], []).value);
    var f := Frame(FRAME_SERVER_HELLO, d.sn + d.sid + [] + mac);
    FrameRoundTrip(f, [], MAX_FRAME);
    assert EncodeFrame(f) + [] == EncodeFrame(f);
    HelloFits(c, s, raw, h, ss, EncodeFrame(f), writable);
    if !p.fs {
      SplitBuilt(p, d.sn, d.sid, [], mac);
      OwnKeyIsConfirm(c, s, ss, d.sn, th2, false);
    }
  }
}
