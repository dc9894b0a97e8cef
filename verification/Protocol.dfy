/**
 * PQC-IoT-1 as a state machine: any number of client runs (`handshake` and the
 * record loop of `pqc_session_run`) and server runs (`handle_connection`), over
 * a network that is the adversary, with compromise of long-term keys and of
 * whatever a live run still holds.
 */
module Protocol {
  import opened Terms

  const VERSION: nat := 1

  predicate IsSuite(suite: nat) { suite == 0x01 || suite == 0x02 || suite == 0x11 || suite == 0x12 }

  predicate IsFs(suite: nat) { suite == 0x11 || suite == 0x12 }

  // ---------------------------------------------------------------- views

  /** What one end knows about a session; agreement is equality of views. */
  datatype Session = Session(
    suite: nat, dev: nat, cn: Term, ct: Term,          // ClientHello
    sn: Term, sid: Term, ek: Term,                     // ServerHello
    ctEph: Term,                                       // ClientKeyExchange
    ss: Term, sse: Term)                               // KEM shared secrets

  /** Everything fixed once ServerHello has been sent. */
  predicate SameHello(v: Session, w: Session) {
    v.suite == w.suite && v.dev == w.dev && v.cn == w.cn && v.ct == w.ct && v.ss == w.ss &&
    v.sn == w.sn && v.sid == w.sid && v.ek == w.ek
  }

  function HelloBody(v: Session): Term {
    Pair(Byte(VERSION), Pair(Byte(v.suite), Pair(Dev(v.dev), Pair(KeyId(Ek(StaticSk)), Pair(v.cn, v.ct)))))
  }

  function HelloMac(v: Session): Term { Mac(Psk(v.dev), Pair(Tag(Hello), HelloBody(v))) }

  function ClientHello(v: Session): Term { Pair(HelloBody(v), HelloMac(v)) }

  function Th2(v: Session): Term { Hash(Pair(ClientHello(v), Pair(v.sn, Pair(v.sid, v.ek)))) }

  function Th3(v: Session): Term { Hash(Pair(Th2(v), v.ctEph)) }

  function Salt(v: Session): Term { Pair(v.cn, v.sn) }

  function Prk1(v: Session): Term { Mac(Salt(v), Pair(v.ss, Psk(v.dev))) }

  function Prk2(v: Session): Term { Mac(Salt(v), Pair(v.ss, Pair(v.sse, Psk(v.dev)))) }

  /** HKDF-Expand to one block: HMAC(prk, label || th || 0x01). */
  function KeyOf(prk: Term, name: Label, th: Term): Term { Mac(prk, Pair(Tag(name), Pair(th, Byte(1)))) }

  function SrvKey(v: Session): Term { KeyOf(Prk1(v), SrvConfirm, Th2(v)) }

  function ServerMac(v: Session): Term { Mac(SrvKey(v), Th2(v)) }

  function ServerHello(v: Session): Term { Pair(v.sn, Pair(v.sid, Pair(v.ek, ServerMac(v)))) }

  function DataPrk(v: Session): Term { if IsFs(v.suite) then Prk2(v) else Prk1(v) }

  function DataTh(v: Session): Term { if IsFs(v.suite) then Th3(v) else Th2(v) }

  function CliKey(v: Session): Term { KeyOf(DataPrk(v), CliConfirm, DataTh(v)) }

  function C2sKey(v: Session): Term { KeyOf(DataPrk(v), C2s, DataTh(v)) }

  function S2cKey(v: Session): Term { KeyOf(DataPrk(v), S2c, DataTh(v)) }

  function ClientMac(v: Session): Term { Mac(CliKey(v), Pair(DataTh(v), ServerMac(v))) }

  function Finished(v: Session): Term { Pair(v.ctEph, ClientMac(v)) }

  function Aad(v: Session, n: nat, len: nat): Term { Pair(v.sid, Pair(Seq(n), Len(len))) }

  function SealedWith(v: Session, n: nat, len: nat, plain: Term): Term {
    Seal(C2sKey(v), GcmNonce(n), Aad(v, n, len), plain)
  }

  function Record(v: Session, n: nat, len: nat, plain: Term): Term {
    Pair(Seq(n), Pair(Len(len), SealedWith(v, n, len, plain)))
  }

  // ---------------------------------------------------------------- state

  datatype ClientPhase = Waiting | Running | Stopped

  /**
   * `sealed` holds the length of every record encrypted so far; `sendSeq` is the
   * session's send_seq. `exposed` records, when ServerHello was accepted,
   * whether PSK and static shared secret were both lost by then; `revealed`
   * whether the run's memory was read while it was live.
   */
  datatype ClientRun = ClientRun(
    v: Session, phase: ClientPhase, accepted: bool, sendSeq: nat, sealed: seq<nat>, exposed: bool, revealed: bool)

  datatype ServerPhase = Awaiting | Open | Over

  /** `clean`: the device's PSK was not lost when ClientFinished was accepted. */
  datatype ServerRun = ServerRun(
    v: Session, phase: ServerPhase, completed: bool, last: int, got: seq<(nat, Term)>, clean: bool, revealed: bool)

  /** Who sent a logged MAC or record. */
  datatype Sender = ByHello(i: nat) | ByServer(j: nat) | ByFinished(i: nat) | ByRecord(i: nat, n: nat)

  /** How a secret was lost. */
  datatype Leak = FromStatic | FromPsk(d: nat) | FromClient(i: nat) | FromServer(j: nat) | Opened

  /** One AES-GCM encryption: the key, the sequence number in the nonce, the run. */
  datatype Encryption = Encryption(key: Term, n: nat, i: nat)

  datatype State = State(
    know: set<Term>, log: map<Term, Sender>, leaked: map<Term, Leak>,
    devices: set<nat>, clients: seq<ClientRun>, servers: seq<ServerRun>, encs: seq<Encryption>)

  const Init: State := State({}, map[], map[], {}, [], [], [])

  ghost predicate Known(s: State, t: Term) { Pub(s.leaked.Keys, s.log.Keys, t) }

  /** The PSK and this session's static shared secret are both lost. */
  predicate HoldsBoth(s: State, v: Session) {
    Psk(v.dev) in s.leaked && (StaticSk in s.leaked || v.ss in s.leaked)
  }

  // ---------------------------------------------------------------- live secrets

  function DataKeys(v: Session): set<Term> { {CliKey(v), C2sKey(v), S2cKey(v)} }

  /** Everything the shared secrets and the PSK of a view yield, and the shared secrets themselves. */
  function SessionSecrets(v: Session): set<Term> {
    {Psk(v.dev), v.ss, SrvKey(v)} + DataKeys(v) + (if IsFs(v.suite) then {v.sse} else {})
  }

  function ClientSecrets(c: ClientRun): set<Term> {
    match c.phase
    case Waiting => {Psk(c.v.dev), c.v.ss}
    case Running => SessionSecrets(c.v)
    case Stopped => {}
  }

  /** dk_E is held from ServerHello until ClientFinished arrives or the run dies. */
  function ServerSecrets(j: nat, r: ServerRun): set<Term> {
    match r.phase
    case Awaiting =>
      {Psk(r.v.dev), r.v.ss, SrvKey(r.v)} + (if IsFs(r.v.suite) then {EphSk(j)} else DataKeys(r.v))
    case Open => SessionSecrets(r.v)
    case Over => {}
  }

  // ---------------------------------------------------------------- client steps

  function FreshClient(i: nat, dev: nat, suite: nat): ClientRun {
    ClientRun(
      Session(suite, dev, ClientNonce(i), Encap(Ek(StaticSk), Coins(i, false)), Empty, Empty, Empty, Empty,
              Shared(Ek(StaticSk), Coins(i, false)), Empty),
      Waiting, false, 0, [], false, false)
  }

  function ClientStart(s: State, dev: nat, suite: nat): State {
    var i := |s.clients|;
    var c := FreshClient(i, dev, suite);
    s.(clients := s.clients + [c],
       know := s.know + {ClientHello(c.v)},
       log := s.log[HelloMac(c.v) := ByHello(i)])
  }

  /** The client's view once the fields of a ServerHello are taken from the wire. */
  function Offered(v: Session, sn: Term, sid: Term, ek: Term): Session { v.(sn := sn, sid := sid, ek := ek) }

  /** The view after encapsulating to ek_E; in mode A there is nothing to add. */
  function Answered(i: nat, v: Session): Session {
    if IsFs(v.suite) then v.(ctEph := Encap(v.ek, Coins(i, true)), sse := Shared(v.ek, Coins(i, true))) else v
  }

  /** The MAC is checked before ek_E is used, then ek_E is checked before encapsulating. */
  predicate Acceptable(v: Session, mac: Term) {
    mac == ServerMac(v) && if IsFs(v.suite) then Canonical(v.ek) else v.ek == Empty
  }

  function AcceptedRun(i: nat, c: ClientRun, v: Session, exposed: bool): ClientRun {
    c.(v := Answered(i, v), phase := Running, accepted := true, exposed := exposed)
  }

  function ClientReceive(s: State, i: nat, sn: Term, sid: Term, ek: Term, mac: Term): State
    requires i < |s.clients|
  {
    var c := s.clients[i];
    var v := Offered(c.v, sn, sid, ek);
    if !Acceptable(v, mac) then s.(clients := s.clients[i := c.(phase := Stopped)])
    else
      var w := Answered(i, v);
      s.(clients := s.clients[i := AcceptedRun(i, c, v, HoldsBoth(s, v))],
         know := s.know + {Finished(w)},
         log := s.log[ClientMac(w) := ByFinished(i)])
  }

  function SentRun(c: ClientRun, len: nat, wrote: bool): ClientRun {
    c.(sealed := c.sealed + [len],
       sendSeq := if wrote then c.sendSeq + 1 else c.sendSeq,
       phase := if wrote then Running else Stopped)
  }

  /** A failed write leaves send_seq alone and ends the session. */
  function ClientSend(s: State, i: nat, len: nat, wrote: bool): State
    requires i < |s.clients|
  {
    var c := s.clients[i];
    var n := c.sendSeq;
    s.(clients := s.clients[i := SentRun(c, len, wrote)],
       know := s.know + {Record(c.v, n, len, Payload(i, n))},
       log := s.log[SealedWith(c.v, n, len, Payload(i, n)) := ByRecord(i, n)],
       encs := s.encs + [Encryption(C2sKey(c.v), n, i)])
  }

  function ClientStop(s: State, i: nat): State
    requires i < |s.clients|
  {
    s.(clients := s.clients[i := s.clients[i].(phase := Stopped)])
  }

  // ---------------------------------------------------------------- server steps

  function FreshServer(j: nat, suite: nat, dev: nat, cn: Term, ct: Term): ServerRun {
    ServerRun(
      Session(suite, dev, cn, ct, ServerNonce(j), SessionId(j), if IsFs(suite) then Ek(EphSk(j)) else Empty, Empty,
              Decap(StaticSk, ct), Empty),
      Awaiting, false, -1, [], false, false)
  }

  function ServerReceive(s: State, suite: nat, dev: nat, cn: Term, ct: Term): State {
    var j := |s.servers|;
    var r := FreshServer(j, suite, dev, cn, ct);
    s.(servers := s.servers + [r],
       know := s.know + {ServerHello(r.v)},
       log := s.log[ServerMac(r.v) := ByServer(j)])
  }

  /** The server's view once ct_eph is decapsulated with dk_E. */
  function Concluded(j: nat, v: Session, ctEph: Term): Session {
    if IsFs(v.suite) then v.(ctEph := ctEph, sse := Decap(EphSk(j), ctEph)) else v
  }

  function CompletedRun(j: nat, r: ServerRun, ctEph: Term, clean: bool): ServerRun {
    r.(v := Concluded(j, r.v, ctEph), phase := Open, completed := true, clean := clean)
  }

  /** Whatever the outcome, the run leaves Awaiting and with it loses dk_E. */
  function ServerFinish(s: State, j: nat, ctEph: Term, mac: Term): State
    requires j < |s.servers|
  {
    var r := s.servers[j];
    var w := Concluded(j, r.v, ctEph);
    if mac != ClientMac(w) || (!IsFs(r.v.suite) && ctEph != Empty) then
      s.(servers := s.servers[j := r.(phase := Over)])
    else
      s.(servers := s.servers[j := CompletedRun(j, r, ctEph, Psk(r.v.dev) !in s.leaked)])
  }

  /** AES-GCM opens exactly what was sealed under the same key, nonce and AAD. */
  predicate Opens(v: Session, n: nat, len: nat, body: Term) {
    body.Seal? && body == SealedWith(v, n, len, body.plain)
  }

  function ReadRun(r: ServerRun, n: nat, plain: Term): ServerRun { r.(last := n, got := r.got + [(n, plain)]) }

  function ServerRead(s: State, j: nat, n: nat, len: nat, body: Term): State
    requires j < |s.servers|
  {
    var r := s.servers[j];
    if n <= r.last || !Opens(r.v, n, len, body) then s.(servers := s.servers[j := r.(phase := Over)])
    else s.(servers := s.servers[j := ReadRun(r, n, body.plain)])
  }

  function ServerStop(s: State, j: nat): State
    requires j < |s.servers|
  {
    s.(servers := s.servers[j := s.servers[j].(phase := Over)])
  }

  // ---------------------------------------------------------------- adversary steps

  /** Opening a record under a key the adversary holds may reveal a new plaintext. */
  function Deduce(s: State, rule: Rule): State {
    var t := Conclusion(rule);
    s.(know := s.know + {t},
       leaked := if rule.ROpen? && t.Payload? && t !in s.leaked then s.leaked[t := Opened] else s.leaked)
  }

  function LoseTerm(s: State, t: Term, how: Leak): State {
    s.(know := s.know + {t}, leaked := s.leaked[t := how])
  }

  function LoseAll(leaked: map<Term, Leak>, ts: set<Term>, how: Leak): map<Term, Leak> {
    leaked + map t | t in ts :: if t.Psk? then FromPsk(t.dev) else how
  }

  function RevealClient(s: State, i: nat): State
    requires i < |s.clients|
  {
    var ts := ClientSecrets(s.clients[i]);
    s.(clients := s.clients[i := s.clients[i].(revealed := true)],
       know := s.know + ts, leaked := LoseAll(s.leaked, ts, FromClient(i)))
  }

  function RevealServer(s: State, j: nat): State
    requires j < |s.servers|
  {
    var ts := ServerSecrets(j, s.servers[j]);
    s.(servers := s.servers[j := s.servers[j].(revealed := true)],
       know := s.know + ts, leaked := LoseAll(s.leaked, ts, FromServer(j)))
  }

  // ---------------------------------------------------------------- runs

  datatype Action =
    | Register(dev: nat)
    | AClientStart(dev: nat, suite: nat)
    | AClientReceive(i: nat, sn: Term, sid: Term, ek: Term, mac: Term)
    | AClientSend(i: nat, len: nat, wrote: bool)
    | AClientStop(i: nat)
    | AServerReceive(dev: nat, suite: nat, cn: Term, ct: Term)
    | AServerFinish(j: nat, ctEph: Term, mac: Term)
    | AServerRead(j: nat, n: nat, len: nat, body: Term)
    | AServerStop(j: nat)
    | ADeduce(rule: Rule)
    | ALoseStatic
    | ALosePsk(dev: nat)
    | ARevealClient(i: nat)
    | ARevealServer(j: nat)

  /** A message is delivered only if the adversary can produce it. */
  predicate Enabled(s: State, a: Action) {
    match a
    case Register(_) => true
    case AClientStart(_, suite) => IsSuite(suite)
    case AClientReceive(i, sn, sid, ek, mac) =>
      i < |s.clients| && s.clients[i].phase == Waiting && Pair(sn, Pair(sid, Pair(ek, mac))) in s.know
    case AClientSend(i, _, _) =>
      i < |s.clients| && s.clients[i].phase == Running && s.clients[i].sendSeq < 0x1_0000_0000_0000_0000
    case AClientStop(i) => i < |s.clients|
    case AServerReceive(dev, suite, cn, ct) =>
      IsSuite(suite) && dev in s.devices && ClientHello(FreshServer(|s.servers|, suite, dev, cn, ct).v) in s.know
    case AServerFinish(j, ctEph, mac) =>
      j < |s.servers| && s.servers[j].phase == Awaiting && Pair(ctEph, mac) in s.know
    case AServerRead(j, n, len, body) =>
      j < |s.servers| && s.servers[j].phase == Open && Pair(Seq(n), Pair(Len(len), body)) in s.know
    case AServerStop(j) => j < |s.servers|
    case ADeduce(rule) => Premises(rule, s.know)
    case ALoseStatic => true
    case ALosePsk(_) => true
    case ARevealClient(i) => i < |s.clients| && s.clients[i].phase != Stopped
    case ARevealServer(j) => j < |s.servers| && s.servers[j].phase != Over
  }

  function Apply(s: State, a: Action): State
    requires Enabled(s, a)
  {
    match a
    case Register(dev) => s.(devices := s.devices + {dev})
    case AClientStart(dev, suite) => ClientStart(s, dev, suite)
    case AClientReceive(i, sn, sid, ek, mac) => ClientReceive(s, i, sn, sid, ek, mac)
    case AClientSend(i, len, wrote) => ClientSend(s, i, len, wrote)
    case AClientStop(i) => ClientStop(s, i)
    case AServerReceive(dev, suite, cn, ct) => ServerReceive(s, suite, dev, cn, ct)
    case AServerFinish(j, ctEph, mac) => ServerFinish(s, j, ctEph, mac)
    case AServerRead(j, n, len, body) => ServerRead(s, j, n, len, body)
    case AServerStop(j) => ServerStop(s, j)
    case ADeduce(rule) => Deduce(s, rule)
    case ALoseStatic => LoseTerm(s, StaticSk, FromStatic)
    case ALosePsk(d) => LoseTerm(s, Psk(d), FromPsk(d))
    case ARevealClient(i) => RevealClient(s, i)
    case ARevealServer(j) => RevealServer(s, j)
  }

  ghost predicate Next(s: State, s': State) { exists a: Action :: Step(s, a, s') }

  predicate Step(s: State, a: Action, s': State) { Enabled(s, a) && s' == Apply(s, a) }

  /** A finite execution from some state; an execution of the system starts in Init. */
  ghost predicate Execution(run: seq<State>) {
    |run| > 0 && forall k :: 0 <= k < |run| - 1 ==> Next(run[k], run[k + 1])
  }
}
