/**
 * The reference server: one connection from ClientHello to the last record, with
 * the ephemeral key as an object that every exit destroys.
 */
module Server {
  import opened Bytes
  import opened Crypto
  import opened KeySchedule
  import opened Messages
  import opened Framing
  import opened Records
  import opened Client

  /** Long-term state and the fresh values of one connection. */
  datatype ServerSetup = ServerSetup(
    dk: Bytes, keyId: Bytes, table: map<Bytes, Bytes>, sn: Bytes, sid: Bytes, dkE: Bytes, ekE: Bytes)

  // ---------------------------------------------------------------- specification

  datatype Admission = Denied | Admitted(h: ClientHello, psk: Bytes, ss: Bytes32)

  /** The checks before anything is answered; the PSK MAC comes before decapsulation. */
  function Admit(c: Primitives, s: ServerSetup, f: Frame): Admission {
    if f.ftype != FRAME_CLIENT_HELLO then Denied
    else
      match Decode(f.payload)
      case None => Denied
      case Some(h) =>
        if h.keyId != s.keyId || h.deviceId !in s.table then Denied
        else if HelloMac(c, s.table[h.deviceId], SignedPart(h)) != h.pskMac then Denied
        else
          match c.decaps(s.dk, h.kemCt)
          case None => Denied
          case Some(ss) => Admitted(h, s.table[h.deviceId], ss)
  }

  /**
   * What a sender must show before the server does any ML-KEM work: a ClientHello
   * for this server's key from a registered device, with a MAC under its PSK.
   */
  predicate Proven(c: Primitives, s: ServerSetup, f: Frame) {
    f.ftype == 0x01 && Decode(f.payload).Some? &&
    var h := Decode(f.payload).value;
    h.keyId == s.keyId && h.deviceId in s.table &&
    h.pskMac == c.hmac(s.table[h.deviceId], Ascii("PQC-IoT-1 hello") + f.payload[..|f.payload| - 32])
  }

  /** Exactly the proven hellos are admitted, if their ciphertext is one decapsulation takes. */
  lemma AdmittedIsProven(c: Primitives, s: ServerSetup, f: Frame)
    ensures Admit(c, s, f).Admitted? <==>
            Proven(c, s, f) && c.decaps(s.dk, Decode(f.payload).value.kemCt).Some?
    ensures var a := Admit(c, s, f);
            a.Admitted? ==> Decode(f.payload) == Some(a.h) && a.psk == s.table[a.h.deviceId] &&
                            c.decaps(s.dk, a.h.kemCt) == Some(a.ss)
  {
    DataTexts();
    if Decode(f.payload).Some? { HelloLayout(Decode(f.payload).value); }
  }

  function Fs(a: Admission): bool
    requires a.Admitted?
  {
    Params(a.h.suite).Some? && Params(a.h.suite).value.fs
  }

  function EkFor(s: ServerSetup, fs: bool): Bytes { if fs then s.ekE else [] }

  function Th2Of(c: Primitives, s: ServerSetup, raw: Bytes, fs: bool): Bytes32 {
    Transcript2(c, raw, s.sn, s.sid, EkFor(s, fs))
  }

  /** server_mac, unless the PSK is unusable. */
  function MacOf(c: Primitives, s: ServerSetup, a: Admission, raw: Bytes): Option<Bytes>
    requires a.Admitted?
  {
    var th2 := Th2Of(c, s, raw, Fs(a));
    match ServerConfirm(c, Fs(a), a.ss, a.psk, a.h.nonce, s.sn, th2)
    case None => None
    case Some(k) => Some(c.hmac(k, th2))
  }

  function ServerHello(s: ServerSetup, fs: bool, mac: Bytes): Frame {
    Frame(FRAME_SERVER_HELLO, s.sn + s.sid + EkFor(s, fs) + mac)
  }

  /** The c2s key, if ClientFinished verifies. */
  function Conclude(c: Primitives, s: ServerSetup, a: Admission, raw: Bytes, mac: Bytes, f: Frame): Option<Bytes>
    requires a.Admitted? && Params(a.h.suite).Some?
  {
    var th2 := Th2Of(c, s, raw, Fs(a));
    var ct := if Fs(a) then Params(a.h.suite).value.ct else 0;
    if f.ftype != FRAME_CLIENT_FINISHED || |f.payload| != ct + MAC_LEN then None
    else if Fs(a) then
      match c.decaps(s.dkE, f.payload[..ct])
      case None => None
      case Some(sse) =>
        var th3 := Transcript3(c, th2, f.payload[..ct]);
        Confirmed(c, DeriveStage2(c, a.ss, sse, a.psk, a.h.nonce, s.sn, th3), th3, mac, f.payload[ct..])
    else
      match DeriveKeys(c, a.ss, a.psk, a.h.nonce, s.sn, th2)
      case None => None
      case Some(keys) => Confirmed(c, keys, th2, mac, f.payload)
  }

  predicate DecapsTo(c: Primitives, s: ServerSetup, ctEph: Bytes, sse: Bytes) {
    c.decaps(s.dkE, ctEph).Some? && c.decaps(s.dkE, ctEph).value == sse
  }

  function Confirmed(c: Primitives, keys: SessionKeys, transcript: Bytes, mac: Bytes, clientMac: Bytes): Option<Bytes> {
    if c.hmac(keys.cliConfirm, transcript + mac) == clientMac then Some(keys.c2s) else None
  }

  /** What the record loop delivers; `orderly` is false when it ends in an exception. */
  datatype Delivery = Delivery(plains: seq<Bytes>, orderly: bool)

  function Deliver(c: Primitives, key: Bytes, sid: Bytes, last: int, incoming: Bytes): Delivery
    decreases |incoming|
  {
    match ParseFrame(incoming, MAX_FRAME)
    case Bad => Delivery([], true)
    case Good(f, rest) =>
      if f.ftype == FRAME_CLOSE then Delivery([], true)
      else if f.ftype != FRAME_DATA then Delivery([], false)
      else
        match OpenRecord(c, key, sid, last, f.payload)
        case Rejected => Delivery([], false)
        case Accepted(n, p) =>
          var d := Deliver(c, key, sid, n, rest);
          Delivery([p] + d.plains, d.orderly)
  }

  datatype Service = Dropped(sent: Bytes) | Served(sent: Bytes, sid: Bytes, c2s: Bytes, delivery: Delivery)

  /** A whole connection on a stream that delivers `incoming` and takes `writable` bytes. */
  function Serve(c: Primitives, s: ServerSetup, incoming: Bytes, writable: nat): Service {
    match ParseFrame(incoming, MAX_FRAME)
    case Bad => Dropped([])
    case Good(f, rest) =>
      var a := Admit(c, s, f);
      if a.Denied? then Dropped([]) else ServeAdmitted(c, s, a, f.payload, rest, writable)
  }

  function ServeAdmitted(c: Primitives, s: ServerSetup, a: Admission, raw: Bytes, rest: Bytes, writable: nat): Service
    requires a.Admitted?
  {
    match MacOf(c, s, a, raw)
    case None => Dropped([])
    case Some(mac) =>
      var f2 := ServerHello(s, Fs(a), mac);
      if !Sent([], f2, writable) then Dropped(Sending([], f2, writable)) else AwaitFinished(c, s, a, raw, mac, rest)
  }

  function AwaitFinished(c: Primitives, s: ServerSetup, a: Admission, raw: Bytes, mac: Bytes, rest: Bytes): Service
    requires a.Admitted?
  {
    var m2 := EncodeFrame(ServerHello(s, Fs(a), mac));
    match ParseFrame(rest, MAX_FRAME)
    case Bad => Dropped(m2)
    case Good(f, tail) =>
      if Params(a.h.suite).None? then Dropped(m2)
      else
        match Conclude(c, s, a, raw, mac, f)
        case None => Dropped(m2)
        case Some(c2s) => Served(m2, s.sid, c2s, Deliver(c, c2s, s.sid, -1, tail))
  }

  // ---------------------------------------------------------------- pqc_server.py

  /** The server's long-term key; `decapsulations` counts the calls that cost ML-KEM work. */
  class MlKemPrivateKey {
    const dk: Bytes
    const keyId: Bytes
    ghost var decapsulations: nat

    constructor (dk: Bytes, keyId: Bytes)
      ensures this.dk == dk && this.keyId == keyId && decapsulations == 0
    {
      this.dk, this.keyId := dk, keyId;
      decapsulations := 0;
    }

    method Decapsulate(c: Primitives, ct: Bytes) returns (r: Option<Bytes32>)
      modifies this
      ensures r == c.decaps(dk, ct) && decapsulations == old(decapsulations) + 1
    {
      decapsulations := decapsulations + 1;
      r := c.decaps(dk, ct);
    }
  }

  /** A per-session ML-KEM key pair; `dk` is gone once destroyed. */
  class EphemeralKey {
    const rawPublic: Bytes
    var dk: Option<Bytes>

    constructor (dk: Bytes, ek: Bytes)
      ensures rawPublic == ek && this.dk == Some(dk)
    {
      rawPublic, this.dk := ek, Some(dk);
    }

    method Decapsulate(c: Primitives, ct: Bytes) returns (r: Option<Bytes32>)
      requires dk.Some?
      ensures r == c.decaps(dk.value, ct)
    {
      r := c.decaps(dk.value, ct);
    }

    method Destroy()
      modifies this
      ensures dk == None
    {
      dk := None;
    }
  }

  /** The body of the try block after ServerHello: the frame, its length, and the keys. */
  method ReadFinished(c: Primitives, s: ServerSetup, a: Admission, raw: Bytes, mac: Bytes, sock: Socket,
                      ephemeral: EphemeralKey?, th2: Bytes32)
    returns (r: Option<(SessionKeys, Bytes, Bytes)>)
    requires a.Admitted? && WellSized(a.h) && th2 == Th2Of(c, s, raw, Fs(a))
    requires MacOf(c, s, a, raw) == Some(mac)
    requires Fs(a) ==> ephemeral != null && ephemeral.dk == Some(s.dkE)
    modifies sock`incoming
    ensures match ParseFrame(old(sock.incoming), MAX_FRAME)
            case Bad => r == None
            case Good(f, tail) =>
              match r
              case None => Conclude(c, s, a, raw, mac, f) == None
              case Some((keys, transcript, clientMac)) =>
                sock.incoming == tail &&
                Conclude(c, s, a, raw, mac, f) == Confirmed(c, keys, transcript, mac, clientMac)
  {
    var f := sock.ReadFrame();
    if f.None? { return None; }
    if f.value.ftype != FRAME_CLIENT_FINISHED { return None; }
    var payload := f.value.payload;
    if Fs(a) {
      var ct := Params(a.h.suite).value.ct;
      if |payload| != ct + MAC_LEN { return None; }
      var ctEph, clientMac := payload[..ct], payload[ct..];
      var sse := ephemeral.Decapsulate(c, ctEph);
      if sse.None? { return None; }
      var th3 := Transcript3(c, th2, ctEph);
      r := Some((DeriveStage2(c, a.ss, sse.value, a.psk, a.h.nonce, s.sn, th3), th3, clientMac));
    } else {
      if |payload| != MAC_LEN { return None; }
      var keys := DeriveKeys(c, a.ss, a.psk, a.h.nonce, s.sn, th2);
      r := Some((keys.value, th2, payload));
    }
  }

  /** The record loop: a frame that cannot be read or a Close ends it, anything else out of place raises. */
  method RecordLoop(c: Primitives, key: Bytes, sid: Bytes, sock: Socket) returns (d: Delivery)
    modifies sock`incoming
    ensures d == Deliver(c, key, sid, -1, old(sock.incoming))
  {
    var inbound := new RecordStream(c, key, sid);
    var plains: seq<Bytes> := [];
    while true
      invariant inbound.c == c && inbound.key == key && inbound.sessionId == sid
      invariant var d := Deliver(c, key, sid, inbound.lastRecvSeq, sock.incoming);
                Deliver(c, key, sid, -1, old(sock.incoming)) == Delivery(plains + d.plains, d.orderly)
      decreases |sock.incoming|
    {
      var f := sock.ReadFrame();
      if f.None? { return Delivery(plains, true); }
      if f.value.ftype == FRAME_CLOSE { return Delivery(plains, true); }
      if f.value.ftype != FRAME_DATA { return Delivery(plains, false); }
      var p := inbound.Open(f.value.payload);
      if p.None? { return Delivery(plains, false); }
      ghost var later := Deliver(c, key, sid, inbound.lastRecvSeq, sock.incoming);
      assert plains + ([p.value] + later.plains) == (plains + [p.value]) + later.plains;
      plains := plains + [p.value];
    }
  }

  /** The socket and the c2s key once the handshake part of a connection is over. */
  ghost predicate Exchanged(c: Primitives, sock: Socket, out0: Bytes, service: Service, c2s: Option<Bytes>)
    reads sock
  {
    match service
    case Dropped(m) => c2s == None && sock.outgoing == out0 + m
    case Served(m, sid, key, d) =>
      c2s == Some(key) && sock.outgoing == out0 + m && d == Deliver(c, key, sid, -1, sock.incoming)
  }

  /** Everything between admission and the record loop; dk_E is destroyed on every way out. */
  method Exchange(c: Primitives, s: ServerSetup, a: Admission, raw: Bytes, sock: Socket)
    returns (c2s: Option<Bytes>, ephemeral: EphemeralKey?)
    requires a.Admitted? && WellSized(a.h)
    modifies sock
    ensures ephemeral != null ==> fresh(ephemeral) && ephemeral.dk == None
    ensures Fs(a) ==> ephemeral != null
    ensures Exchanged(c, sock, old(sock.outgoing),
                      ServeAdmitted(c, s, a, raw, old(sock.incoming), old(sock.writable)), c2s)
  {
    ephemeral, c2s := null, None;
    var fs := Fs(a);
    if fs { ephemeral := new EphemeralKey(s.dkE, s.ekE); }
    var ekEph := if ephemeral != null then ephemeral.rawPublic else [];
    var th2 := Transcript2(c, raw, s.sn, s.sid, ekEph);
    var srvConfirm := ServerConfirm(c, fs, a.ss, a.psk, a.h.nonce, s.sn, th2);
    if srvConfirm.Some? {
      var mac := c.hmac(srvConfirm.value, th2);
      c2s := ExchangeMacs(c, s, a, raw, mac, sock, ephemeral, th2);
    }
    if ephemeral != null { ephemeral.Destroy(); }
  }

  method ExchangeMacs(c: Primitives, s: ServerSetup, a: Admission, raw: Bytes, mac: Bytes, sock: Socket,
                      ephemeral: EphemeralKey?, th2: Bytes32)
    returns (c2s: Option<Bytes>)
    requires a.Admitted? && WellSized(a.h) && th2 == Th2Of(c, s, raw, Fs(a)) && MacOf(c, s, a, raw) == Some(mac)
    requires Fs(a) ==> ephemeral != null && ephemeral.dk == Some(s.dkE)
    modifies sock
    ensures Exchanged(c, sock, old(sock.outgoing),
                      ServeAdmitted(c, s, a, raw, old(sock.incoming), old(sock.writable)), c2s)
  {
    var f2 := ServerHello(s, Fs(a), mac);
    SendingAfter(sock.outgoing, [], f2, sock.writable);
    assert sock.outgoing + [] == sock.outgoing;
    c2s := None;
    var ok := sock.WriteFrame(f2);
    if !ok { return; }
    c2s := CheckFinished(c, s, a, raw, mac, sock, ephemeral, th2, old(sock.outgoing));
  }

  method CheckFinished(c: Primitives, s: ServerSetup, a: Admission, raw: Bytes, mac: Bytes, sock: Socket,
                       ephemeral: EphemeralKey?, th2: Bytes32, ghost out0: Bytes) returns (c2s: Option<Bytes>)
    requires a.Admitted? && WellSized(a.h) && th2 == Th2Of(c, s, raw, Fs(a)) && MacOf(c, s, a, raw) == Some(mac)
    requires Fs(a) ==> ephemeral != null && ephemeral.dk == Some(s.dkE)
    requires sock.outgoing == out0 + EncodeFrame(ServerHello(s, Fs(a), mac))
    modifies sock`incoming
    ensures Exchanged(c, sock, out0, AwaitFinished(c, s, a, raw, mac, old(sock.incoming)), c2s)
  {
    c2s := None;
    var r := ReadFinished(c, s, a, raw, mac, sock, ephemeral, th2);
    if r.None? { return; }
    var (keys, transcript, clientMac) := r.value;
    if c.hmac(keys.cliConfirm, transcript + mac) == clientMac { c2s := Some(keys.c2s); }
  }

  /** Keys and delivered plaintexts of a completed session. */
  datatype Report = Report(sid: Bytes, c2s: Bytes, delivery: Delivery)

  /** handle_connection. */
  method HandleConnection(c: Primitives, s: ServerSetup, key: MlKemPrivateKey, sock: Socket)
    returns (r: Option<Report>, ephemeral: EphemeralKey?)
    requires key.dk == s.dk && key.keyId == s.keyId
    modifies key, sock
    ensures match Serve(c, s, old(sock.incoming), old(sock.writable))
            case Dropped(m) => r == None && sock.outgoing == old(sock.outgoing) + m
            case Served(m, sid, c2s, d) => r == Some(Report(sid, c2s, d)) && sock.outgoing == old(sock.outgoing) + m
    ensures ephemeral != null ==> fresh(ephemeral) && ephemeral.dk == None
    ensures match ParseFrame(old(sock.incoming), MAX_FRAME)
            case Bad => ephemeral == null
            case Good(f, _) => Admit(c, s, f).Admitted? && Fs(Admit(c, s, f)) ==> ephemeral != null
    ensures var first := ParseFrame(old(sock.incoming), MAX_FRAME);
            key.decapsulations ==
            old(key.decapsulations) + (if first.Good? && Proven(c, s, first.frame) then 1 else 0)
  {
    r, ephemeral := None, null;
    var f := sock.ReadFrame();
    if f.None? { return; }
    var a := CheckHello(c, s, key, f.value);
    if a.Denied? { return; }
    var c2s;
    c2s, ephemeral := Exchange(c, s, a, f.value.payload, sock);
    if c2s.Some? {
      var d := RecordLoop(c, c2s.value, s.sid, sock);
      r := Some(Report(s.sid, c2s.value, d));
    }
  }

  /** The checks on ClientHello, in order; anything that fails drops the connection without an answer. */
  method CheckHello(c: Primitives, s: ServerSetup, key: MlKemPrivateKey, f: Frame) returns (a: Admission)
    requires key.dk == s.dk && key.keyId == s.keyId
    modifies key
    ensures a == Admit(c, s, f)
    ensures a.Admitted? ==> WellSized(a.h)
    ensures key.decapsulations == old(key.decapsulations) + (if Proven(c, s, f) then 1 else 0)
  {
    DataTexts();
    if f.ftype != FRAME_CLIENT_HELLO { return Denied; }
    var hello := Parse(f.payload);
    if hello.None? { return Denied; }
    var h := hello.value;
    if h.keyId != key.keyId { return Denied; }
    if h.deviceId !in s.table { return Denied; }
    var psk := s.table[h.deviceId];
    var signed := f.payload[..|f.payload| - MAC_LEN];
    assert signed == SignedPart(h);
    if HelloMac(c, psk, signed) != h.pskMac { return Denied; }
    var ss := key.Decapsulate(c, h.kemCt);
    if ss.None? { return Denied; }
    return Admitted(h, psk, ss.value);
  }
}
