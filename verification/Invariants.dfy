/**
 * The inductive invariant of the protocol, and what no step ever takes back.
 */
module Invariants {
  import opened Terms
  import opened Protocol

  // ---------------------------------------------------------------- the invariant

  ghost predicate KnowOk(s: State) { s.leaked.Keys <= s.know && forall t <- s.know :: Known(s, t) }

  /** Every logged MAC or record was made by the named run, from its own view. */
  ghost predicate SentBy(s: State, t: Term, who: Sender) {
    match who
    case ByHello(i) => i < |s.clients| && t == HelloMac(s.clients[i].v)
    case ByServer(j) => j < |s.servers| && t == ServerMac(s.servers[j].v)
    case ByFinished(i) => i < |s.clients| && s.clients[i].accepted && t == ClientMac(s.clients[i].v)
    case ByRecord(i, n) =>
      i < |s.clients| && s.clients[i].accepted && n < |s.clients[i].sealed| &&
      t == SealedWith(s.clients[i].v, n, s.clients[i].sealed[n], Payload(i, n))
  }

  ghost predicate LogOk(s: State) { forall t <- s.log :: SentBy(s, t, s.log[t]) }

  predicate ClientSecret(c: ClientRun, t: Term) {
    t == c.v.ss || (c.accepted && (t == SrvKey(c.v) || t in DataKeys(c.v) || (IsFs(c.v.suite) && t == c.v.sse)))
  }

  predicate ServerSecret(j: nat, r: ServerRun, t: Term) {
    t == r.v.ss || t == SrvKey(r.v) || (IsFs(r.v.suite) && t == EphSk(j)) ||
    ((r.completed || !IsFs(r.v.suite)) && t in DataKeys(r.v)) ||
    (r.completed && IsFs(r.v.suite) && t == r.v.sse)
  }

  /** Every lost secret is long-term, or was read from a live run of a device whose PSK went with it. */
  ghost predicate LostBy(s: State, t: Term, how: Leak) {
    match how
    case FromStatic => t == StaticSk
    case FromPsk(d) => t == Psk(d)
    case FromClient(i) =>
      i < |s.clients| && s.clients[i].revealed && Psk(s.clients[i].v.dev) in s.leaked && ClientSecret(s.clients[i], t)
    case FromServer(j) =>
      j < |s.servers| && s.servers[j].revealed && Psk(s.servers[j].v.dev) in s.leaked &&
      ServerSecret(j, s.servers[j], t)
    case Opened =>
      t.Payload? && t.run < |s.clients| && s.clients[t.run].accepted && C2sKey(s.clients[t.run].v) in s.know
  }

  ghost predicate LeakOk(s: State) { forall t <- s.leaked :: LostBy(s, t, s.leaked[t]) }

  /** Some server run holds the same view up to and including ServerHello. */
  ghost predicate ServerMatch(s: State, v: Session) {
    v.sn.ServerNonce? && v.sn.run < |s.servers| && SameHello(s.servers[v.sn.run].v, v)
  }

  ghost predicate ClientOk(s: State, i: nat)
    requires i < |s.clients|
  {
    var c := s.clients[i];
    var v := c.v;
    IsSuite(v.suite) && v.cn == ClientNonce(i) && v.ct == Encap(Ek(StaticSk), Coins(i, false)) &&
    v.ss == Shared(Ek(StaticSk), Coins(i, false)) &&
    (!c.accepted ==> c.phase != Running && c.sealed == [] && c.sendSeq == 0 && v.ctEph == v.sse == Empty) &&
    (c.accepted ==> c.phase != Waiting && v == Answered(i, v) &&
                    if IsFs(v.suite) then v.ek.Ek? else v.ek == v.ctEph == v.sse == Empty) &&
    (c.phase == Running ==> |c.sealed| == c.sendSeq) &&
    ClientHello(v) in s.know && (c.accepted ==> ServerHello(v) in s.know && Finished(v) in s.know) &&
    (c.exposed ==> c.accepted && HoldsBoth(s, v)) &&
    (c.accepted && !c.exposed ==> ServerMatch(s, v))
  }

  ghost predicate ClientsOk(s: State) { forall i: nat :: i < |s.clients| ==> ClientOk(s, i) }

  /** The client run whose nonce is in this view accepted and holds exactly the same view. */
  ghost predicate ClientMatch(s: State, v: Session) {
    v.cn.ClientNonce? && v.cn.run < |s.clients| && s.clients[v.cn.run].accepted && s.clients[v.cn.run].v == v
  }

  ghost predicate Delivered(s: State, v: Session, e: (nat, Term)) {
    ClientMatch(s, v) && e.0 < |s.clients[v.cn.run].sealed| && e.1 == Payload(v.cn.run, e.0)
  }

  predicate Increasing(got: seq<(nat, Term)>) { forall a, b :: 0 <= a < b < |got| ==> got[a].0 < got[b].0 }

  ghost predicate ServerOk(s: State, j: nat)
    requires j < |s.servers|
  {
    var r := s.servers[j];
    var v := r.v;
    v.sn == ServerNonce(j) && v.sid == SessionId(j) && v.ss == Decap(StaticSk, v.ct) &&
    v.ek == (if IsFs(v.suite) then Ek(EphSk(j)) else Empty) && ServerHello(v) in s.know &&
    IsSuite(v.suite) && v.dev in s.devices && ClientHello(v) in s.know &&
    (r.completed ==> r.phase != Awaiting && v == Concluded(j, v, v.ctEph)) &&
    (!r.completed ==> r.phase != Open && r.got == []) &&
    (!r.completed || !IsFs(v.suite) ==> v.ctEph == v.sse == Empty) &&
    Increasing(r.got) && r.last == (if r.got == [] then -1 else r.got[|r.got| - 1].0) &&
    (r.clean ==> r.completed && ClientMatch(s, v) && !s.clients[v.cn.run].exposed)
  }

  ghost predicate ServersOk(s: State) { forall j: nat :: j < |s.servers| ==> ServerOk(s, j) }

  /** Unless its key is lost, a server run has delivered only what its client sealed. */
  ghost predicate GotOk(s: State, j: nat)
    requires j < |s.servers|
  {
    Known(s, C2sKey(s.servers[j].v)) || forall e <- s.servers[j].got :: Delivered(s, s.servers[j].v, e)
  }

  ghost predicate AllGotOk(s: State) { forall j: nat :: j < |s.servers| ==> GotOk(s, j) }

  ghost predicate EncOk(s: State, e: Encryption) {
    e.i < |s.clients| && s.clients[e.i].accepted && e.key == C2sKey(s.clients[e.i].v) && e.n < |s.clients[e.i].sealed|
  }

  predicate NoncesUnique(encs: seq<Encryption>) {
    forall a, b :: 0 <= a < b < |encs| ==> encs[a].key != encs[b].key || encs[a].n != encs[b].n
  }

  ghost predicate EncsOk(s: State) { (forall e <- s.encs :: EncOk(s, e)) && NoncesUnique(s.encs) }

  ghost predicate Inv(s: State) {
    KnowOk(s) && LogOk(s) && LeakOk(s) && ClientsOk(s) && ServersOk(s) && AllGotOk(s) && EncsOk(s)
  }

  // ---------------------------------------------------------------- what never changes

  predicate ClientGrows(c: ClientRun, c': ClientRun) {
    c.v.suite == c'.v.suite && c.v.dev == c'.v.dev && c.v.cn == c'.v.cn && c.v.ct == c'.v.ct && c.v.ss == c'.v.ss &&
    (c.accepted ==> c'.accepted && c.v == c'.v && c.exposed == c'.exposed) &&
    c.sealed <= c'.sealed && (c.revealed ==> c'.revealed) &&
    (c.phase != Waiting ==> c'.phase != Waiting && c.accepted == c'.accepted) && (c.phase == Stopped ==> c' == c)
  }

  predicate ServerGrows(r: ServerRun, r': ServerRun) {
    SameHello(r.v, r'.v) &&
    (r.completed ==> r'.completed && r.v == r'.v && r.clean == r'.clean) &&
    r.got <= r'.got && (r.revealed ==> r'.revealed) &&
    (r.phase != Awaiting ==> r'.phase != Awaiting && r.completed == r'.completed) && (r.phase == Over ==> r' == r)
  }

  /** Knowledge, losses and the log only grow; runs only move forward. */
  ghost predicate Grows(s: State, s': State) {
    s.know <= s'.know && s.leaked.Keys <= s'.leaked.Keys && s.log.Keys <= s'.log.Keys && s.devices <= s'.devices &&
    |s.clients| <= |s'.clients| && |s.servers| <= |s'.servers| &&
    (forall i :: 0 <= i < |s.clients| ==> ClientGrows(s.clients[i], s'.clients[i])) &&
    (forall j :: 0 <= j < |s.servers| ==> ServerGrows(s.servers[j], s'.servers[j]))
  }
}
