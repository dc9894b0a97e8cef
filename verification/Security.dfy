/**
 * What the protocol guarantees in every reachable state and along every run.
 */
module Security {
  import opened Terms
  import opened Protocol
  import opened Invariants
  import opened Preservation
  import opened Secrecy
  import opened Steps

  ghost predicate Reaches(s: State, t: State) {
    exists run: seq<State> :: Execution(run) && run[0] == s && run[|run| - 1] == t
  }

  ghost predicate Reachable(s: State) { Reaches(Init, s) }

  lemma ReachesKeeps(s: State, t: State)
    requires Inv(s) && Reaches(s, t)
    ensures Inv(t) && Grows(s, t)
  {
    var run: seq<State> :| Execution(run) && run[0] == s && run[|run| - 1] == t;
    ExecutionKeeps(run, |run| - 1);
  }

  lemma ReachableInv(s: State)
    requires Reachable(s)
    ensures Inv(s)
  {
    InitInv();
    ReachesKeeps(Init, s);
  }

  lemma StepReaches(s: State, a: Action)
    requires Enabled(s, a)
    ensures Reaches(s, Apply(s, a))
  {
    var run := [s, Apply(s, a)];
    assert Step(s, a, Apply(s, a));
    assert Next(run[0], run[1]);
    assert Execution(run);
  }

  lemma ReachesTransitive(s: State, t: State, u: State)
    requires Reaches(s, t) && Reaches(t, u)
    ensures Reaches(s, u)
  {
    var a: seq<State> :| Execution(a) && a[0] == s && a[|a| - 1] == t;
    var b: seq<State> :| Execution(b) && b[0] == t && b[|b| - 1] == u;
    var run := a + b[1..];
    forall k | 0 <= k < |run| - 1 ensures Next(run[k], run[k + 1]) {
      if k < |a| - 1 { assert Next(a[k], a[k + 1]); }
      else { assert Next(b[k - |a| + 1], b[k - |a| + 1 + 1]); }
    }
    assert Execution(run) && run[0] == s && run[|run| - 1] == u;
  }

  // ---------------------------------------------------------------- server authentication

  /** The adversary holds the device's PSK together with dk_S or with this run's static shared secret. */
  predicate BothLost(s: State, v: Session) {
    Psk(v.dev) in s.know && (StaticSk in s.know || v.ss in s.know)
  }

  lemma HoldsBothIsKnown(s: State, v: Session)
    requires KnowOk(s) && HoldsBoth(s, v)
    ensures BothLost(s, v)
  {
  }

  /**
   * Client-side agreement: a client that accepts a ServerHello does so with a
   * server run that has the same hello, nonces, session id and ek_E, unless both
   * defences are lost at that moment.
   */
  lemma ClientAcceptsOnlyItsServer(s: State, i: nat, sn: Term, sid: Term, ek: Term, mac: Term)
    requires Reachable(s) && Enabled(s, AClientReceive(i, sn, sid, ek, mac))
    requires !BothLost(s, s.clients[i].v)
    ensures var s' := ClientReceive(s, i, sn, sid, ek, mac);
            s'.clients[i].accepted ==>
              exists j: nat :: j < |s.servers| && SameHello(s.servers[j].v, s'.clients[i].v)
  {
    ReachableInv(s);
    assert ClientOk(s, i);
    var v := Offered(s.clients[i].v, sn, sid, ek);
    if Acceptable(v, mac) {
      AcceptanceProvesServer(s, i, sn, sid, ek, mac);
      if HoldsBoth(s, v) { HoldsBothIsKnown(s, v); }
      assert SameHello(s.servers[v.sn.run].v, v);
    }
  }

  /**
   * The same in every reachable state: a client run that has encapsulated to an
   * ek_E or sealed a record has one server run behind it that sent its ServerHello,
   * unless both defences were lost when it accepted.
   */
  lemma ActiveClientHasServer(s: State, i: nat)
    requires Reachable(s) && i < |s.clients| && !s.clients[i].exposed
    requires s.clients[i].v.ctEph != Empty || s.clients[i].sealed != []
    ensures exists j: nat :: HelloOf(s, i, j) && forall k: nat :: HelloOf(s, i, k) ==> k == j
  {
    ReachableInv(s);
    ActiveIsAccepted(s, i);
    AcceptedServer(s, i);
    forall k: nat | HelloOf(s, i, k) ensures k == s.clients[i].v.sn.run { SameHelloSameRun(s, k, s.clients[i].v); }
  }

  /** Server run j sent the ServerHello that client run i took. */
  predicate HelloOf(s: State, i: nat, j: nat) {
    i < |s.clients| && j < |s.servers| && SameHello(s.servers[j].v, s.clients[i].v)
  }

  lemma ActiveIsAccepted(s: State, i: nat)
    requires ClientsOk(s) && i < |s.clients| && (s.clients[i].v.ctEph != Empty || s.clients[i].sealed != [])
    ensures s.clients[i].accepted
  {
    assert ClientOk(s, i);
  }

  lemma AcceptedServer(s: State, i: nat)
    requires ClientsOk(s) && i < |s.clients| && s.clients[i].accepted && !s.clients[i].exposed
    ensures s.clients[i].v.sn.ServerNonce? && HelloOf(s, i, s.clients[i].v.sn.run)
  {
    assert ClientOk(s, i);
  }

  /** Nothing is encapsulated to ek_E, confirmed or encrypted by a client run that has not accepted a server. */
  lemma NothingBeforeAcceptance(s: State, i: nat)
    requires Reachable(s) && i < |s.clients| && !s.clients[i].accepted
    ensures s.clients[i].v.ctEph == Empty && s.clients[i].sealed == []
    ensures forall t <- s.log :: !s.log[t].ByHello? && !s.log[t].ByServer? ==> s.log[t].i != i
    ensures forall e <- s.encs :: e.i != i
  {
    ReachableInv(s);
    assert ClientOk(s, i);
    forall t <- s.log | !s.log[t].ByHello? && !s.log[t].ByServer? ensures s.log[t].i != i {
      assert SentBy(s, t, s.log[t]);
    }
    forall e <- s.encs ensures e.i != i { assert EncOk(s, e); }
  }

  // ---------------------------------------------------------------- client authentication

  /** Client run i holds the same view as server run j, keys and KEM secrets included. */
  predicate Agrees(s: State, i: nat, j: nat) {
    i < |s.clients| && j < |s.servers| && s.clients[i].accepted && s.clients[i].v == s.servers[j].v
  }

  /**
   * Injective agreement: a server run that accepted ClientFinished while the
   * device's PSK was safe agrees with exactly one client run, and no other server
   * run ever completes with that client run.
   */
  lemma ServerCompletesWithOneClient(s: State, j: nat)
    requires Reachable(s) && j < |s.servers| && s.servers[j].clean
    ensures exists i: nat :: Agrees(s, i, j) && forall k: nat :: Agrees(s, k, j) ==> k == i
    ensures forall i: nat, k: nat :: Agrees(s, i, j) && Agrees(s, i, k) ==> k == j
  {
    ReachableInv(s);
    assert ServerOk(s, j);
    var i := s.servers[j].v.cn.run;
    assert Agrees(s, i, j);
    forall k: nat | Agrees(s, k, j) ensures k == i { assert ClientOk(s, k); }
    forall m: nat, k: nat | Agrees(s, m, j) && Agrees(s, m, k) ensures k == j { assert ServerOk(s, k); }
  }

  /** The step that earns it: the MAC check passes while the PSK is unknown to the adversary. */
  lemma FinishedMacMakesClean(s: State, j: nat, ctEph: Term, mac: Term)
    requires Reachable(s) && Enabled(s, AServerFinish(j, ctEph, mac)) && Psk(s.servers[j].v.dev) !in s.know
    ensures var s' := ServerFinish(s, j, ctEph, mac);
            s'.servers[j].completed ==>
              s'.servers[j].clean && s'.servers[j].v.ctEph == ctEph && s'.servers[j].v.cn.ClientNonce? &&
              Agrees(s', s'.servers[j].v.cn.run, j)
  {
    ReachableInv(s);
    var s' := ServerFinish(s, j, ctEph, mac);
    assert ServerOk(s, j);
    ServerFinishKeeps(s, j, ctEph, mac);
    assert ServerOk(s', j);
  }

  // ---------------------------------------------------------------- secrecy of keys

  /** Some live run holding this client's static ciphertext had its memory read. */
  ghost predicate LiveRead(s: State, i: nat)
    requires i < |s.clients|
  {
    s.clients[i].revealed ||
    exists j: nat :: j < |s.servers| && s.servers[j].revealed && s.servers[j].v.ct == s.clients[i].v.ct
  }

  /** One of the two shared secrets a client encapsulated. */
  predicate ClientKemSecret(v: Session, i: nat, t: Term) {
    (t == v.ss && t == Shared(Ek(StaticSk), Coins(i, false))) || (t == v.sse && t == Shared(v.ek, Coins(i, true)))
  }

  /** Where a lost secret other than an HKDF output was read. */
  lemma LostOrigin(s: State, t: Term)
    requires Shaped(s) && t in s.leaked && !t.Mac?
    ensures match s.leaked[t]
            case FromClient(i) => i < |s.clients| && s.clients[i].revealed && ClientKemSecret(s.clients[i].v, i, t)
            case FromServer(j) => j < |s.servers| && s.servers[j].revealed &&
                                  (t == s.servers[j].v.ss || t == EphSk(j) ||
                                   (t == s.servers[j].v.sse && t == Decap(EphSk(j), s.servers[j].v.ctEph)))
            case Opened => t.Payload? && LostBy(s, t, Opened)
            case _ => t.StaticSk? || t.Psk?
  {
    assert LostBy(s, t, s.leaked[t]);
    match s.leaked[t]
    case FromClient(i) => ClientSecretShape(s, i, t); ClientKemOutputs(s, i);
    case FromServer(j) => ServerSecretOrigin(s, j, t);
    case _ =>
  }

  lemma ServerSecretOrigin(s: State, j: nat, t: Term)
    requires ServersOk(s) && j < |s.servers| && ServerSecret(j, s.servers[j], t) && !t.Mac?
    ensures t == s.servers[j].v.ss || t == EphSk(j) ||
            (t == s.servers[j].v.sse && t == Decap(EphSk(j), s.servers[j].v.ctEph))
  {
    assert ServerOk(s, j);
    ServerKeyShapes(s.servers[j].v);
  }

  lemma LeakedStaticSecret(s: State, i: nat)
    requires Shaped(s) && i < |s.clients| && s.clients[i].v.ss in s.leaked
    ensures LiveRead(s, i)
  {
    var t := s.clients[i].v.ss;
    assert ClientOk(s, i);
    LostOrigin(s, t);
    match s.leaked[t]
    case FromClient(k) => ClientKemOutputs(s, k);
    case FromServer(j) => StaticSecretHolder(s, i, j);
  }

  lemma StaticSecretHolder(s: State, i: nat, j: nat)
    requires ClientsOk(s) && ServersOk(s) && i < |s.clients| && j < |s.servers|
    ensures s.clients[i].v.ss == s.servers[j].v.ss ==> s.servers[j].v.ct == s.clients[i].v.ct
    ensures s.clients[i].v.ss != Decap(EphSk(j), s.servers[j].v.ctEph)
  {
    ClientKemOutputs(s, i);
    ServerViewShape(s, j);
    StaticCiphertextOwner(s, i);
  }

  lemma StaticCiphertextOwner(s: State, k: nat)
    requires ClientsOk(s) && k < |s.clients|
    ensures s.clients[k].v.ct == Encap(Ek(StaticSk), Coins(k, false))
  {
    assert ClientOk(s, k);
  }

  lemma SameHelloSameRun(s: State, k: nat, v: Session)
    requires ServersOk(s) && k < |s.servers| && SameHello(s.servers[k].v, v)
    ensures v.sn == ServerNonce(k)
  {
    assert ServerOk(s, k);
  }

  /** A leaked session key was read from a live run that holds it. */
  lemma LeakedSessionKey(s: State, i: nat, t: Term)
    requires Shaped(s) && i < |s.clients| && s.clients[i].accepted
    requires SessionKey(s.clients[i].v, t) && t in s.leaked
    ensures s.clients[i].revealed ||
            exists j: nat :: j < |s.servers| && s.servers[j].revealed && SameHello(s.servers[j].v, s.clients[i].v) &&
                             (t != SrvKey(s.clients[i].v) ==> s.servers[j].v == s.clients[i].v)
  {
    var v := s.clients[i].v;
    ServerKeyShapes(v);
    LeakedMac(s, t.key, t.msg);
    ClientViewWellFormed(s, i);
    match s.leaked[t]
    case FromClient(k) =>
      ClientViewWellFormed(s, k);
      SharedSessionKey(v, s.clients[k].v, t);
    case FromServer(j) =>
      ServerViewWellFormed(s, j);
      SharedSessionKey(v, s.servers[j].v, t);
  }

  /** Two views that share a session key share everything up to ServerHello, and all of it for a data key. */
  lemma SharedSessionKey(v: Session, w: Session, t: Term)
    requires WellFormed(v) && WellFormed(w) && SessionKey(v, t) && SessionKey(w, t)
    ensures SameHello(w, v) && (t != SrvKey(v) ==> w == v)
  {
    ServerKeyShapes(v);
    ServerKeyShapes(w);
    if t == SrvKey(v) { SrvKeyInjective(w, v); } else { DataKeyInjective(w, v, t.msg.l.name); }
  }

  lemma KnownSessionKey(s: State, v: Session, t: Term)
    requires Shaped(s) && SessionKey(v, t) && Known(s, t) && t !in s.leaked
    ensures Psk(v.dev) in s.leaked && Known(s, v.ss) && (IsFs(v.suite) && t != SrvKey(v) ==> Known(s, v.sse))
  {
    ServerKeyShapes(v);
    if t == SrvKey(v) {
      KnownKey(s, Salt(v), Pair(v.ss, Psk(v.dev)), t.msg);
      Ikm1NeedsPsk(s, v);
    } else {
      KnownKey(s, Salt(v), DataPrk(v).msg, t.msg);
      IkmNeedsPsk(s, v);
    }
  }

  /**
   * Two independent defences, in both modes: while either the PSK or dk_S is
   * unknown to the adversary, no session key of an accepted client run is known
   * to it, unless the run itself was read while live. Only this device's PSK
   * occurs in the condition, so the PSKs of all other devices may be lost.
   */
  lemma EitherDefenceSuffices(s: State, i: nat, t: Term)
    requires Reachable(s) && i < |s.clients| && s.clients[i].accepted && SessionKey(s.clients[i].v, t)
    requires Psk(s.clients[i].v.dev) !in s.know || (StaticSk !in s.know && !LiveRead(s, i))
    ensures t !in s.know
  {
    ReachableInv(s);
    var v := s.clients[i].v;
    if t in s.know {
      if t in s.leaked { LeakedKeyCosts(s, i, t); }
      else { KnownSessionKey(s, v, t); StaticSecret(s, i); if v.ss in s.leaked { LeakedStaticSecret(s, i); } }
    }
  }

  lemma LeakedKeyCosts(s: State, i: nat, t: Term)
    requires Shaped(s) && i < |s.clients| && s.clients[i].accepted && SessionKey(s.clients[i].v, t) && t in s.leaked
    ensures Psk(s.clients[i].v.dev) in s.leaked && LiveRead(s, i)
  {
    var v := s.clients[i].v;
    SessionKeyShape(v, t);
    LeakedMac(s, t.key, t.msg);
    LeakedSessionKey(s, i, t);
    ClientViewWellFormed(s, i);
    match s.leaked[t]
    case FromClient(k) =>
      ClientViewWellFormed(s, k);
      SharedSessionKey(v, s.clients[k].v, t);
    case FromServer(j) =>
      ServerViewWellFormed(s, j);
      SharedSessionKey(v, s.servers[j].v, t);
  }

  // ---------------------------------------------------------------- forward secrecy

  /** The ephemeral shared secret falls only with one of its two live ends. */
  lemma EphemeralSecret(s: State, i: nat, j: nat)
    requires Shaped(s) && i < |s.clients| && s.clients[i].accepted && IsFs(s.clients[i].v.suite)
    requires j < |s.servers| && s.clients[i].v.ek == Ek(EphSk(j)) && Known(s, s.clients[i].v.sse)
    ensures s.servers[j].revealed || s.clients[i].revealed
  {
    var t := s.clients[i].v.sse;
    ClientKemOutputs(s, i);
    CoinsSecret(s, i, true);
    if t in s.leaked { LeakedEphemeral(s, i, j, t); } else { LostEphSk(s, j); }
  }

  lemma LostEphSk(s: State, j: nat)
    requires Shaped(s) && Known(s, EphSk(j))
    ensures j < |s.servers| && s.servers[j].revealed
  {
    LostOrigin(s, EphSk(j));
    match s.leaked[EphSk(j)]
    case FromServer(k) => ServerKemOutputs(s, k);
  }

  lemma LeakedEphemeral(s: State, i: nat, j: nat, t: Term)
    requires Shaped(s) && t == Shared(Ek(EphSk(j)), Coins(i, true)) && t in s.leaked
    ensures (j < |s.servers| && s.servers[j].revealed) || (i < |s.clients| && s.clients[i].revealed)
  {
    LostOrigin(s, t);
    match s.leaked[t]
    case FromServer(k) => ServerViewShape(s, k);
    case _ =>
  }

  lemma ServerViewShape(s: State, k: nat)
    requires ServersOk(s) && k < |s.servers|
    ensures var v := s.servers[k].v; v.ss == Decap(StaticSk, v.ct) && (IsFs(v.suite) ==> v.ek == Ek(EphSk(k)))
  {
    assert ServerOk(s, k);
  }

  /**
   * Forward secrecy against whoever did not supply ek_E: if a mode B client took
   * the ServerHello of an honest run, its data keys stay unknown whatever else is
   * lost and whenever, dk_S and the PSK before acceptance included, unless one of
   * the two ends was read while live.
   */
  lemma HonestEphemeralSuffices(s: State, i: nat, j: nat, t: Term)
    requires Reachable(s) && HelloOf(s, i, j) && s.clients[i].accepted
    requires IsFs(s.clients[i].v.suite) && t in DataKeys(s.clients[i].v)
    ensures !s.clients[i].revealed && !s.servers[j].revealed ==> t !in s.know
  {
    ReachableInv(s);
    if t in s.know && !s.clients[i].revealed && !s.servers[j].revealed { KnownFsKey(s, i, j, t); }
  }

  lemma KnownFsKey(s: State, i: nat, j: nat, t: Term)
    requires Inv(s) && HelloOf(s, i, j) && s.clients[i].accepted
    requires IsFs(s.clients[i].v.suite) && t in DataKeys(s.clients[i].v) && Known(s, t)
    ensures s.clients[i].revealed || s.servers[j].revealed
  {
    var v := s.clients[i].v;
    ServerKeyShapes(v);
    if t in s.leaked {
      LeakedSessionKey(s, i, t);
      if !s.clients[i].revealed {
        var k: nat :| k < |s.servers| && s.servers[k].revealed && SameHello(s.servers[k].v, v);
        SameHelloSameRun(s, k, v);
        SameHelloSameRun(s, j, v);
      }
    } else {
      assert ServerOk(s, j);
      KnownSessionKey(s, v, t);
      EphemeralSecret(s, i, j);
    }
  }

  /**
   * Forward secrecy in every reachable state: if a mode B client accepted while
   * one defence stood, its data keys stay unknown even when dk_S and every PSK
   * are lost, unless it or its server run was read while live.
   */
  lemma ForwardSecrecy(s: State, i: nat, t: Term)
    requires Reachable(s) && i < |s.clients| && s.clients[i].accepted && !s.clients[i].exposed
    requires IsFs(s.clients[i].v.suite) && t in DataKeys(s.clients[i].v)
    ensures s.clients[i].v.sn.ServerNonce? && s.clients[i].v.sn.run < |s.servers|
    ensures !s.clients[i].revealed && !s.servers[s.clients[i].v.sn.run].revealed ==> t !in s.know
  {
    ReachableInv(s);
    AcceptedServer(s, i);
    HonestEphemeralSuffices(s, i, s.clients[i].v.sn.run, t);
  }

  /**
   * The same over runs: s1 accepts with one defence standing, in s3 both ends
   * have finished unread, and whatever happens later, any compromise included,
   * the data keys and the payloads stay unknown.
   */
  lemma ForwardSecrecyOverRuns(s1: State, i: nat, sn: Term, sid: Term, ek: Term, mac: Term, s3: State, s4: State,
                               t: Term)
    requires Reachable(s1) && Enabled(s1, AClientReceive(i, sn, sid, ek, mac)) && !BothLost(s1, s1.clients[i].v)
    requires var s2 := ClientReceive(s1, i, sn, sid, ek, mac);
             s2.clients[i].accepted && IsFs(s2.clients[i].v.suite) && Reaches(s2, s3) && Reaches(s3, s4) &&
             t in DataKeys(s2.clients[i].v)
    ensures sn.ServerNonce? && sn.run < |s3.servers| && i < |s3.clients|
    ensures s3.clients[i].phase == Stopped && !s3.clients[i].revealed &&
            s3.servers[sn.run].phase == Over && !s3.servers[sn.run].revealed ==>
              t !in s4.know && forall n: nat :: Payload(i, n) !in s4.know
  {
    var s2 := ClientReceive(s1, i, sn, sid, ek, mac);
    AcceptedUnexposed(s1, i, sn, sid, ek, mac);
    AcceptedHasServer(s2, i, s3);
    if s3.clients[i].phase == Stopped && !s3.clients[i].revealed &&
       s3.servers[sn.run].phase == Over && !s3.servers[sn.run].revealed {
      ReachableInv(s2);
      AcceptedServer(s2, i);
      HonestEphemeralOverRuns(s2, s3, s4, i, sn.run, t);
    }
  }

  /** A client that accepted unexposed faces a server run, which every later state still has. */
  lemma AcceptedHasServer(s: State, i: nat, t: State)
    requires Reachable(s) && i < |s.clients| && s.clients[i].accepted && !s.clients[i].exposed && Reaches(s, t)
    ensures s.clients[i].v.sn.ServerNonce? && s.clients[i].v.sn.run < |t.servers| && i < |t.clients|
  {
    ReachableInv(s);
    AcceptedServer(s, i);
    ReachesKeeps(s, t);
  }

  lemma AcceptedUnexposed(s1: State, i: nat, sn: Term, sid: Term, ek: Term, mac: Term)
    requires Reachable(s1) && Enabled(s1, AClientReceive(i, sn, sid, ek, mac)) && !BothLost(s1, s1.clients[i].v)
    requires ClientReceive(s1, i, sn, sid, ek, mac).clients[i].accepted
    ensures var s2 := ClientReceive(s1, i, sn, sid, ek, mac);
            Reachable(s2) && !s2.clients[i].exposed && s2.clients[i].v.sn == sn
  {
    var s2 := ClientReceive(s1, i, sn, sid, ek, mac);
    ReachableInv(s1);
    assert ClientOk(s1, i);
    var v := Offered(s1.clients[i].v, sn, sid, ek);
    if HoldsBoth(s1, v) { HoldsBothIsKnown(s1, v); }
    StepReaches(s1, AClientReceive(i, sn, sid, ek, mac));
    ReachesTransitive(Init, s1, s2);
  }

  lemma LaterView(s2: State, s3: State, s4: State, i: nat, j: nat)
    requires Reachable(s2) && Reaches(s2, s3) && Reaches(s3, s4) && i < |s2.clients| && i < |s3.clients| &&
             j < |s3.servers|
    requires s2.clients[i].accepted
    requires s3.clients[i].phase == Stopped && !s3.clients[i].revealed
    requires s3.servers[j].phase == Over && !s3.servers[j].revealed
    ensures Reachable(s4) && i < |s4.clients| && s4.clients[i].accepted && s4.clients[i].v == s2.clients[i].v
    ensures !s4.clients[i].revealed && j < |s4.servers| && !s4.servers[j].revealed
  {
    ReachableInv(s2);
    ReachesKeeps(s2, s3);
    ReachesKeeps(s3, s4);
    assert ClientGrows(s2.clients[i], s3.clients[i]) && ClientGrows(s3.clients[i], s4.clients[i]);
    assert ServerGrows(s3.servers[j], s4.servers[j]);
    ReachesTransitive(Init, s2, s3);
    ReachesTransitive(Init, s3, s4);
  }

  /**
   * Along runs, for any mode B client that took an honest run's ServerHello, whatever
   * had been lost by then: once both ends have finished unread, no later compromise
   * reveals the data keys or a payload.
   */
  lemma HonestEphemeralOverRuns(s2: State, s3: State, s4: State, i: nat, j: nat, t: Term)
    requires Reachable(s2) && Reaches(s2, s3) && Reaches(s3, s4) && HelloOf(s2, i, j) && s2.clients[i].accepted
    requires IsFs(s2.clients[i].v.suite) && t in DataKeys(s2.clients[i].v)
    requires i < |s3.clients| && s3.clients[i].phase == Stopped && !s3.clients[i].revealed
    requires j < |s3.servers| && s3.servers[j].phase == Over && !s3.servers[j].revealed
    ensures t !in s4.know && forall n: nat :: Payload(i, n) !in s4.know
  {
    LaterView(s2, s3, s4, i, j);
    LaterServer(s2, s3, s4, i, j);
    HonestEphemeralSuffices(s4, i, j, t);
    HonestEphemeralSuffices(s4, i, j, C2sKey(s2.clients[i].v));
    forall n: nat ensures Payload(i, n) !in s4.know {
      if Payload(i, n) in s4.know { PayloadNeedsKey(s4, i, n); }
    }
  }

  lemma LaterServer(s2: State, s3: State, s4: State, i: nat, j: nat)
    requires Reachable(s2) && Reaches(s2, s3) && Reaches(s3, s4) && HelloOf(s2, i, j)
    requires i < |s4.clients| && s4.clients[i].v == s2.clients[i].v
    ensures HelloOf(s4, i, j)
  {
    ReachableInv(s2);
    ReachesKeeps(s2, s3);
    ReachesKeeps(s3, s4);
    assert ServerGrows(s2.servers[j], s3.servers[j]) && ServerGrows(s3.servers[j], s4.servers[j]);
  }

  /** dk_E leaves the server's memory with ClientFinished: from then on no compromise can lose it. */
  lemma EphemeralKeyDiesWithHandshake(s: State, a: Action, j: nat)
    requires Reachable(s) && Enabled(s, a) && j < |s.servers|
    requires s.servers[j].phase != Awaiting && EphSk(j) !in s.know
    ensures EphSk(j) !in Apply(s, a).know
    ensures Apply(s, a).servers[j].phase != Awaiting
  {
    ReachableInv(s);
    var s' := Apply(s, a);
    StepKeeps(s, a);
    assert ServerGrows(s.servers[j], s'.servers[j]);
    if EphSk(j) in s'.know { assert Known(s', EphSk(j)); NewLoss(s, a, j); }
  }

  predicate Loses(a: Action) { a.ADeduce? || a.ALoseStatic? || a.ALosePsk? || a.ARevealClient? || a.ARevealServer? }

  lemma NothingLost(s: State, a: Action)
    requires Enabled(s, a) && !Loses(a)
    ensures Apply(s, a).leaked == s.leaked
  {
  }

  lemma NewLoss(s: State, a: Action, j: nat)
    requires Shaped(s) && Enabled(s, a) && j < |s.servers| && s.servers[j].phase != Awaiting
    requires EphSk(j) !in s.leaked
    ensures EphSk(j) !in Apply(s, a).leaked
  {
    if !Loses(a) { NothingLost(s, a); }
    else if a.ARevealClient? {
      ClientHoldsNoEphSk(s, a.i, j);
      LostToAll(s.leaked, ClientSecrets(s.clients[a.i]), FromClient(a.i), j);
    } else if a.ARevealServer? {
      OpenSecrets(s, a.j, j);
      LostToAll(s.leaked, ServerSecrets(a.j, s.servers[a.j]), FromServer(a.j), j);
    }
  }

  lemma LostToAll(leaked: map<Term, Leak>, ts: set<Term>, how: Leak, j: nat)
    requires EphSk(j) !in leaked && EphSk(j) !in ts
    ensures EphSk(j) !in LoseAll(leaked, ts, how)
  {
  }

  lemma ClientHoldsNoEphSk(s: State, i: nat, j: nat)
    requires ClientsOk(s) && i < |s.clients|
    ensures EphSk(j) !in ClientSecrets(s.clients[i])
  {
    if EphSk(j) in ClientSecrets(s.clients[i]) {
      RunningIsAccepted(s, i);
      LiveClientSecret(s.clients[i], EphSk(j));
      ClientSecretShape(s, i, EphSk(j));
    }
  }

  lemma OpenSecrets(s: State, k: nat, j: nat)
    requires ServersOk(s) && k < |s.servers| && j < |s.servers| && s.servers[j].phase != Awaiting
    ensures EphSk(j) !in ServerSecrets(k, s.servers[k])
  {
    OpenSecretShape(s, k);
    if EphSk(j) in ServerSecrets(k, s.servers[k]) { EphSkHolder(s, k, j); }
  }

  lemma OpenSecretShape(s: State, k: nat)
    requires ServersOk(s) && k < |s.servers|
    ensures s.servers[k].phase == Open ==> s.servers[k].completed
  {
    assert ServerOk(s, k);
  }

  /** Of all live runs only the one that made dk_E and still awaits ClientFinished holds it. */
  lemma EphSkHolder(s: State, k: nat, j: nat)
    requires ServersOk(s) && k < |s.servers| && EphSk(j) in ServerSecrets(k, s.servers[k])
    requires s.servers[k].phase == Open ==> s.servers[k].completed
    ensures k == j && s.servers[k].phase == Awaiting
  {
    ServerKemOutputs(s, k);
    ServerKeyShapes(s.servers[k].v);
  }

  // ---------------------------------------------------------------- payloads and records

  /** A plaintext is known to the adversary only together with its session's c2s key. */
  lemma PayloadNeedsKey(s: State, i: nat, n: nat)
    requires Reachable(s) && Payload(i, n) in s.know
    ensures i < |s.clients| && s.clients[i].accepted && C2sKey(s.clients[i].v) in s.know
  {
    ReachableInv(s);
    var t := Payload(i, n);
    assert Known(s, t);
    LostOrigin(s, t);
    match s.leaked[t]
    case FromServer(k) => ServerViewShape(s, k);
    case _ =>
  }

  /**
   * Why a server run's c2s key can be relied on: the PSK is safe; or the handshake
   * was clean and dk_S is safe with no end read while live; or it was clean in mode
   * B and its own two ends were not read.
   */
  ghost predicate RecordsProtected(s: State, j: nat)
    requires j < |s.servers|
  {
    var r := s.servers[j];
    Psk(r.v.dev) !in s.know ||
    (r.clean && r.v.cn.ClientNonce? && r.v.cn.run < |s.clients| &&
     ((StaticSk !in s.know && !LiveRead(s, r.v.cn.run)) ||
      (IsFs(r.v.suite) && !r.revealed && !s.clients[r.v.cn.run].revealed)))
  }

  /** The records a client run has sealed so far, in order. */
  function Sealed(i: nat, count: nat): (r: seq<Term>)
    ensures |r| == count && forall n: nat :: n < count ==> r[n] == Payload(i, n)
  {
    seq(count, (n: nat) => Payload(i, n))
  }

  /** got picks elements of all, at its own strictly increasing positions. */
  ghost predicate PicksFrom(got: seq<(nat, Term)>, all: seq<Term>) {
    Increasing(got) && forall e <- got :: e.0 < |all| && e.1 == all[e.0]
  }

  lemma ProtectedKeyUnknown(s: State, j: nat)
    requires Reachable(s) && j < |s.servers| && s.servers[j].completed && RecordsProtected(s, j)
    ensures !Known(s, C2sKey(s.servers[j].v))
  {
    ReachableInv(s);
    var v := s.servers[j].v;
    if Psk(v.dev) !in s.know { DataKeySecret(s, v, C2s); }
    else {
      assert ServerOk(s, j);
      var i := v.cn.run;
      assert ClientOk(s, i);
      if StaticSk !in s.know && !LiveRead(s, i) { StaticKeyUnknown(s, i); } else { CleanKeyUnknown(s, i, j); }
    }
  }

  /** While dk_S is safe and neither end was read live, an accepted client's c2s key is unknown even without the PSK. */
  lemma StaticKeyUnknown(s: State, i: nat)
    requires Inv(s) && i < |s.clients| && s.clients[i].accepted && StaticSk !in s.know && !LiveRead(s, i)
    ensures !Known(s, C2sKey(s.clients[i].v))
  {
    var v := s.clients[i].v;
    if Known(s, C2sKey(v)) {
      if C2sKey(v) in s.leaked { LeakedKeyCosts(s, i, C2sKey(v)); }
      else {
        KnownSessionKey(s, v, C2sKey(v));
        StaticSecret(s, i);
        if v.ss in s.leaked { LeakedStaticSecret(s, i); }
      }
    }
  }

  lemma CleanKeyUnknown(s: State, i: nat, j: nat)
    requires Inv(s) && Agrees(s, i, j) && IsFs(s.clients[i].v.suite)
    requires !s.clients[i].revealed && !s.servers[j].revealed
    ensures !Known(s, C2sKey(s.clients[i].v))
  {
    if Known(s, C2sKey(s.clients[i].v)) { KnownFsKey(s, i, j, C2sKey(s.clients[i].v)); }
  }

  /** What server run j had delivered by state s is a subsequence of what client run i has sealed by state t. */
  ghost predicate DeliveredFrom(s: State, t: State, i: nat, j: nat)
    requires j < |s.servers|
  {
    Agrees(t, i, j) && PicksFrom(s.servers[j].got, Sealed(i, |t.clients[i].sealed|))
  }

  lemma DeliveryOrder(s: State, j: nat)
    requires Inv(s) && j < |s.servers|
    ensures Increasing(s.servers[j].got) && GotOk(s, j)
    ensures s.servers[j].got != [] ==> s.servers[j].completed
  {
    assert ServerOk(s, j);
  }

  /**
   * The key decides: as long as the adversary cannot have the c2s key of a server
   * run, everything delivered comes, in order, from the one client run with its view.
   */
  lemma UnknownKeyDeliversClient(s: State, j: nat)
    requires Reachable(s) && j < |s.servers| && !Known(s, C2sKey(s.servers[j].v))
    ensures s.servers[j].got == [] || exists i: nat :: DeliveredFrom(s, s, i, j)
  {
    ReachableInv(s);
    var v := s.servers[j].v;
    DeliveryOrder(s, j);
    if s.servers[j].got != [] {
      assert Delivered(s, v, s.servers[j].got[0]);
      var i := v.cn.run;
      forall e <- s.servers[j].got ensures e.0 < |s.clients[i].sealed| && e.1 == Payload(i, e.0) {
        assert Delivered(s, v, e);
      }
      assert DeliveredFrom(s, s, i, j);
    }
  }

  /**
   * End-to-end record integrity: what a server run has delivered is a subsequence,
   * by strictly increasing sequence numbers, of what its one matching client run
   * sealed; no record of another session or direction is ever among it.
   */
  lemma DeliveredIsSubsequence(s: State, j: nat)
    requires Reachable(s) && j < |s.servers| && s.servers[j].completed && RecordsProtected(s, j)
    ensures s.servers[j].got == [] || exists i: nat :: DeliveredFrom(s, s, i, j)
  {
    ProtectedKeyUnknown(s, j);
    UnknownKeyDeliversClient(s, j);
  }

  /**
   * The same for good: what was delivered before the key was known stays delivered
   * and stays a subsequence of what the client sealed, whatever is lost later; a
   * closed session delivers nothing more.
   */
  lemma DeliveriesStaySound(s: State, t: State, j: nat)
    requires Reachable(s) && Reaches(s, t) && j < |s.servers|
    requires !Known(s, C2sKey(s.servers[j].v)) || (s.servers[j].completed && RecordsProtected(s, j))
    ensures j < |t.servers| && s.servers[j].got <= t.servers[j].got
    ensures s.servers[j].phase == Over ==> t.servers[j].got == s.servers[j].got
    ensures s.servers[j].got == [] || exists i: nat :: DeliveredFrom(s, t, i, j)
  {
    ReachableInv(s);
    ReachesKeeps(s, t);
    assert ServerGrows(s.servers[j], t.servers[j]);
    if s.servers[j].completed && RecordsProtected(s, j) { ProtectedKeyUnknown(s, j); }
    if s.servers[j].got != [] {
      UnknownKeyDeliversClient(s, j);
      var i: nat :| DeliveredFrom(s, s, i, j);
      DeliveryOrder(s, j);
      DeliveredFromGrows(s, t, i, j);
    }
  }

  lemma DeliveredFromGrows(s: State, t: State, i: nat, j: nat)
    requires Grows(s, t) && j < |s.servers| && s.servers[j].completed && DeliveredFrom(s, s, i, j)
    ensures DeliveredFrom(s, t, i, j)
  {
    assert ClientGrows(s.clients[i], t.clients[i]) && ServerGrows(s.servers[j], t.servers[j]);
  }

  /** Over the life of all devices no two encryptions use the same key and nonce. */
  lemma NonceNeverRepeats(s: State, a: nat, b: nat)
    requires Reachable(s) && a < b < |s.encs|
    ensures s.encs[a].key != s.encs[b].key || s.encs[a].n != s.encs[b].n
  {
    ReachableInv(s);
  }
}
