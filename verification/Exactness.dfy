/**
 * The other side of the guarantees: honest runs do complete and deliver, a c2s key
 * falls exactly when the stated secrets are lost, and against each condition of the
 * agreement and secrecy theorems there is an attack that works once it is dropped.
 */
module Exactness {
  import opened Terms
  import opened Protocol
  import opened Invariants
  import opened Secrecy
  import opened Steps
  import opened Security

  // ---------------------------------------------------------------- honest runs

  /**
   * Any registered device can complete a session in any suite, whatever happened
   * before, and both ends then hold the same view.
   */
  lemma HonestSessionCompletes(s: State, dev: nat, suite: nat) returns (t: State)
    requires Reachable(s) && dev in s.devices && IsSuite(suite)
    ensures Reaches(s, t)
    ensures var i, j := |s.clients|, |s.servers|;
            Agrees(t, i, j) && t.clients[i].phase == Running && t.servers[j].phase == Open && t.servers[j].completed
    ensures t.servers[|s.servers|].v.suite == suite && t.servers[|s.servers|].v.dev == dev
    ensures Untouched(s, t, |s.clients|, |s.servers|)
  {
    var i, j := |s.clients|, |s.servers|;
    var s1 := ClientStart(s, dev, suite);
    StepReaches(s, AClientStart(dev, suite));
    var c := FreshClient(i, dev, suite);
    var s2 := ServerReceive(s1, suite, dev, c.v.cn, c.v.ct);
    SameClientHello(c.v, FreshServer(j, suite, dev, c.v.cn, c.v.ct).v);
    StepReaches(s1, AServerReceive(dev, suite, c.v.cn, c.v.ct));
    ReachesTransitive(s, s1, s2);
    t := FinishHonestSession(s2, i, j, c, FreshServer(j, suite, dev, c.v.cn, c.v.ct));
    ReachesTransitive(s, s2, t);
  }

  /** Any device can be registered at any time, so that it can complete a session in any suite. */
  lemma AnyDeviceCanJoin(s: State, dev: nat, suite: nat) returns (t: State)
    requires Reachable(s) && IsSuite(suite)
    ensures Reaches(s, t) && dev in t.devices
    ensures var i, j := |s.clients|, |s.servers|;
            Agrees(t, i, j) && t.clients[i].phase == Running && t.servers[j].phase == Open && t.servers[j].completed &&
            t.servers[j].v.dev == dev && t.servers[j].v.suite == suite
  {
    var u := Apply(s, Register(dev));
    StepReaches(s, Register(dev));
    ReachesTransitive(Init, s, u);
    t := HonestSessionCompletes(u, dev, suite);
    ReachesTransitive(s, u, t);
  }

  /** Nothing but two new runs, neither of which has been read or has carried a record. */
  predicate Untouched(s: State, t: State, i: nat, j: nat) {
    i < |t.clients| && j < |t.servers| && t.leaked == s.leaked && t.servers[..j] == s.servers &&
    !t.clients[i].revealed && !t.servers[j].revealed && |t.servers| == j + 1 && t.devices == s.devices &&
    t.clients[i].sendSeq == 0 && t.clients[i].sealed == [] && t.servers[j].last == -1 && t.servers[j].got == [] &&
    t.servers[j].clean == (Psk(t.servers[j].v.dev) !in s.leaked)
  }

  lemma SameClientHello(v: Session, w: Session)
    requires v.suite == w.suite && v.dev == w.dev && v.cn == w.cn && v.ct == w.ct
    ensures ClientHello(v) == ClientHello(w)
  {
  }

  lemma FinishHonestSession(s: State, i: nat, j: nat, c: ClientRun, r: ServerRun) returns (t: State)
    requires i < |s.clients| && j < |s.servers| && s.clients[i] == c && s.servers[j] == r && IsSuite(c.v.suite)
    requires c == FreshClient(i, c.v.dev, c.v.suite) && r == FreshServer(j, c.v.suite, c.v.dev, c.v.cn, c.v.ct)
    requires ServerHello(r.v) in s.know
    ensures Reaches(s, t) && Agrees(t, i, j)
    ensures t.leaked == s.leaked && t.devices == s.devices
    ensures t.clients[i] == AcceptedRun(i, c, r.v, t.clients[i].exposed)
    ensures t.servers == s.servers[j := CompletedRun(j, r, Answered(i, r.v).ctEph, Psk(r.v.dev) !in s.leaked)]
  {
    var s1 := HonestAcceptance(s, i, c, r.v);
    t := HonestCompletion(s1, i, j, r, Answered(i, r.v));
    ReachesTransitive(s, s1, t);
  }

  lemma HonestAcceptance(s: State, i: nat, c: ClientRun, v: Session) returns (t: State)
    requires i < |s.clients| && s.clients[i] == c && c.phase == Waiting && v == Offered(c.v, v.sn, v.sid, v.ek)
    requires ServerHello(v) in s.know && if IsFs(v.suite) then v.ek.Ek? else v.ek == Empty
    ensures Reaches(s, t) && t.servers == s.servers && t.leaked == s.leaked && t.devices == s.devices
    ensures s.know <= t.know
    ensures t.clients == s.clients[i := AcceptedRun(i, c, v, HoldsBoth(s, v))] && Finished(Answered(i, v)) in t.know
  {
    t := ClientReceive(s, i, v.sn, v.sid, v.ek, ServerMac(v));
    StepReaches(s, AClientReceive(i, v.sn, v.sid, v.ek, ServerMac(v)));
  }

  lemma HonestCompletion(s: State, i: nat, j: nat, r: ServerRun, w: Session) returns (t: State)
    requires i < |s.clients| && j < |s.servers| && s.servers[j] == r && r.phase == Awaiting
    requires s.clients[i].accepted && s.clients[i].v == w && w == Concluded(j, r.v, w.ctEph)
    requires Finished(w) in s.know && (!IsFs(r.v.suite) ==> w.ctEph == Empty)
    ensures Reaches(s, t) && Agrees(t, i, j)
    ensures t == s.(servers := s.servers[j := CompletedRun(j, r, w.ctEph, Psk(r.v.dev) !in s.leaked)])
  {
    t := ServerFinish(s, j, w.ctEph, ClientMac(w));
    StepReaches(s, AServerFinish(j, w.ctEph, ClientMac(w)));
  }

  // ---------------------------------------------------------------- adversary derivations

  /** t is s after some inferences: more is known, no run has moved. */
  ghost predicate Infers(s: State, t: State) {
    Reaches(s, t) && s.know <= t.know && t.clients == s.clients && t.servers == s.servers &&
    t.devices == s.devices && forall x <- t.leaked :: x in s.leaked || x.Payload?
  }

  lemma InferNothing(s: State)
    ensures Infers(s, s)
  {
    var run := [s];
    assert Execution(run) && run[0] == s && run[|run| - 1] == s;
  }

  lemma Infer(s0: State, s: State, rule: Rule) returns (t: State)
    requires Infers(s0, s) && Premises(rule, s.know)
    ensures Infers(s0, t) && t.know == s.know + {Conclusion(rule)}
  {
    t := Apply(s, ADeduce(rule));
    StepReaches(s, ADeduce(rule));
    ReachesTransitive(s0, s, t);
  }

  lemma InferHelloParts(s0: State, s: State, v: Session) returns (t: State)
    requires Infers(s0, s) && ClientHello(v) in s.know
    ensures Infers(s0, t) && s.know <= t.know && v.cn in t.know && v.ct in t.know
  {
    var d := Pair(v.cn, v.ct);
    var c := Pair(KeyId(Ek(StaticSk)), d);
    var b := Pair(Dev(v.dev), c);
    var a := Pair(Byte(v.suite), b);
    t := Infer(s0, s, RFst(HelloBody(v), HelloMac(v)));
    t := Infer(s0, t, RSnd(Byte(VERSION), a));
    t := Infer(s0, t, RSnd(Byte(v.suite), b));
    t := Infer(s0, t, RSnd(Dev(v.dev), c));
    t := Infer(s0, t, RSnd(KeyId(Ek(StaticSk)), d));
    t := Infer(s0, t, RFst(v.cn, v.ct));
    t := Infer(s0, t, RSnd(v.cn, v.ct));
  }

  lemma InferReplyParts(s0: State, s: State, v: Session) returns (t: State)
    requires Infers(s0, s) && ServerHello(v) in s.know
    ensures Infers(s0, t) && s.know <= t.know && v.sn in t.know && v.sid in t.know && v.ek in t.know
  {
    var b := Pair(v.ek, ServerMac(v));
    var a := Pair(v.sid, b);
    t := Infer(s0, s, RFst(v.sn, a));
    t := Infer(s0, t, RSnd(v.sn, a));
    t := Infer(s0, t, RFst(v.sid, b));
    t := Infer(s0, t, RSnd(v.sid, b));
    t := Infer(s0, t, RFst(v.ek, ServerMac(v)));
  }

  lemma InferTh2(s0: State, s: State, v: Session) returns (t: State)
    requires Infers(s0, s) && {ClientHello(v), v.sn, v.sid, v.ek} <= s.know
    ensures Infers(s0, t) && s.know <= t.know && Th2(v) in t.know
  {
    t := Infer(s0, s, RPair(v.sid, v.ek));
    t := Infer(s0, t, RPair(v.sn, Pair(v.sid, v.ek)));
    t := Infer(s0, t, RPair(ClientHello(v), Pair(v.sn, Pair(v.sid, v.ek))));
    t := Infer(s0, t, RHash(Pair(ClientHello(v), Pair(v.sn, Pair(v.sid, v.ek)))));
  }

  lemma InferServerMac(s0: State, s: State, v: Session) returns (t: State)
    requires Infers(s0, s) && ServerHello(v) in s.know
    ensures Infers(s0, t) && s.know <= t.know && ServerMac(v) in t.know
  {
    t := Infer(s0, s, RSnd(v.sn, Pair(v.sid, Pair(v.ek, ServerMac(v)))));
    t := Infer(s0, t, RSnd(v.sid, Pair(v.ek, ServerMac(v))));
    t := Infer(s0, t, RSnd(v.ek, ServerMac(v)));
  }

  /** All that the two hellos of a view show in the clear, and TH2. */
  lemma InferPublicParts(s0: State, s: State, v: Session) returns (t: State)
    requires Infers(s0, s) && {ClientHello(v), ServerHello(v)} <= s.know
    ensures Infers(s0, t) && s.know <= t.know
    ensures {v.cn, v.ct, v.sn, v.sid, v.ek, ServerMac(v), Th2(v)} <= t.know
  {
    t := InferHelloParts(s0, s, v);
    t := InferReplyParts(s0, t, v);
    t := InferServerMac(s0, t, v);
    t := InferTh2(s0, t, v);
  }

  lemma InferPrk(s0: State, s: State, v: Session, ikm: Term) returns (t: State)
    requires Infers(s0, s) && {v.cn, v.sn, ikm} <= s.know
    ensures Infers(s0, t) && s.know <= t.know && Mac(Salt(v), ikm) in t.know
  {
    t := Infer(s0, s, RPair(v.cn, v.sn));
    t := Infer(s0, t, RMac(Salt(v), ikm));
  }

  lemma InferKey(s0: State, s: State, prk: Term, name: Label, th: Term) returns (t: State)
    requires Infers(s0, s) && {prk, th} <= s.know
    ensures Infers(s0, t) && s.know <= t.know && KeyOf(prk, name, th) in t.know
  {
    t := Infer(s0, s, RPublic(Tag(name)));
    t := Infer(s0, t, RPublic(Byte(1)));
    t := Infer(s0, t, RPair(th, Byte(1)));
    t := Infer(s0, t, RPair(Tag(name), Pair(th, Byte(1))));
    t := Infer(s0, t, RMac(prk, Pair(Tag(name), Pair(th, Byte(1)))));
  }

  /** ss || PSK, when the PSK and either dk_S or ss itself are known. */
  lemma InferIkm1(s0: State, s: State, v: Session) returns (t: State)
    requires Infers(s0, s) && BothLost(s, v) && v.ct in s.know && v.ss == Decap(StaticSk, v.ct)
    ensures Infers(s0, t) && s.know <= t.know && v.ss in t.know && Pair(v.ss, Psk(v.dev)) in t.know
  {
    t := s;
    if v.ss !in s.know { t := Infer(s0, s, RDecap(StaticSk, v.ct)); }
    t := Infer(s0, t, RPair(v.ss, Psk(v.dev)));
  }

  /** The pseudorandom key, the transcript and any data key of a view, from its secrets. */
  lemma InferDataKey(s0: State, s: State, v: Session, name: Label) returns (t: State)
    requires Infers(s0, s) && {v.cn, v.sn, v.ss, Psk(v.dev), Th2(v)} <= s.know
    requires IsFs(v.suite) ==> {v.sse, v.ctEph} <= s.know
    ensures Infers(s0, t) && s.know <= t.know && {DataTh(v), KeyOf(DataPrk(v), name, DataTh(v))} <= t.know
  {
    if IsFs(v.suite) {
      t := Infer(s0, s, RPair(v.sse, Psk(v.dev)));
      t := Infer(s0, t, RPair(v.ss, Pair(v.sse, Psk(v.dev))));
      t := InferPrk(s0, t, v, Pair(v.ss, Pair(v.sse, Psk(v.dev))));
      t := Infer(s0, t, RPair(Th2(v), v.ctEph));
      t := Infer(s0, t, RHash(Pair(Th2(v), v.ctEph)));
    } else {
      t := Infer(s0, s, RPair(v.ss, Psk(v.dev)));
      t := InferPrk(s0, t, v, Pair(v.ss, Psk(v.dev)));
    }
    t := InferKey(s0, t, DataPrk(v), name, DataTh(v));
  }

  /** From a client's ClientFinished and the private half of the ek_E it answered. */
  lemma InferEphemeral(s0: State, s: State, w: Session, sk: Term) returns (t: State)
    requires Infers(s0, s) && {Finished(w), sk} <= s.know
    requires w.ctEph.Encap? && w.ctEph.ek == w.ek == Ek(sk) && w.sse == Shared(w.ek, w.ctEph.coins)
    ensures Infers(s0, t) && s.know <= t.know && {w.ctEph, w.sse} <= t.know
  {
    t := Infer(s0, s, RFst(w.ctEph, ClientMac(w)));
    t := Infer(s0, t, RDecap(sk, w.ctEph));
  }

  // ---------------------------------------------------------------- exactly when a key falls

  /**
   * Enough is lost to compute this view's c2s key: the key itself, or the PSK with
   * dk_S or the static shared secret, and in mode B also the ephemeral shared
   * secret or dk_E.
   */
  predicate KeyExposed(s: State, v: Session) {
    C2sKey(v) in s.leaked ||
    (HoldsBoth(s, v) && (IsFs(v.suite) ==> v.sse in s.leaked || (v.ek.Ek? && v.ek.sk in s.leaked)))
  }

  /**
   * The c2s key of an accepted client, in mode B one that took the ek_E of a server
   * run, can be inferred from all traffic exactly when it is exposed in this sense.
   * Until then it is not even Known, which is what record integrity asks for.
   */
  lemma KeyFallsExactly(s: State, i: nat, j: nat)
    requires Reachable(s) && i < |s.clients| && s.clients[i].accepted
    requires IsFs(s.clients[i].v.suite) ==> HelloOf(s, i, j)
    ensures (exists t :: Infers(s, t) && C2sKey(s.clients[i].v) in t.know) <==> KeyExposed(s, s.clients[i].v)
    ensures Known(s, C2sKey(s.clients[i].v)) ==> KeyExposed(s, s.clients[i].v)
  {
    ReachableInv(s);
    if Known(s, C2sKey(s.clients[i].v)) { KnownKeyIsExposed(s, i, j); }
    if KeyExposed(s, s.clients[i].v) { var t := ExposedKeyFalls(s, i, j); }
    forall t | Infers(s, t) && C2sKey(s.clients[i].v) in t.know ensures KeyExposed(s, s.clients[i].v) {
      InferredKeyIsExposed(s, i, j, t);
    }
  }

  lemma InferredKeyIsExposed(s: State, i: nat, j: nat, t: State)
    requires Reachable(s) && i < |s.clients| && s.clients[i].accepted
    requires IsFs(s.clients[i].v.suite) ==> HelloOf(s, i, j)
    requires Infers(s, t) && C2sKey(s.clients[i].v) in t.know
    ensures KeyExposed(s, s.clients[i].v)
  {
    ReachesTransitive(Init, s, t);
    ReachableInv(t);
    KnownKeyIsExposed(t, i, j);
    ReachableInv(s);
    ClientKemOutputs(s, i);
    if IsFs(s.clients[i].v.suite) { ServerViewShape(s, j); }
  }

  lemma KnownKeyIsExposed(s: State, i: nat, j: nat)
    requires Inv(s) && i < |s.clients| && s.clients[i].accepted
    requires IsFs(s.clients[i].v.suite) ==> HelloOf(s, i, j)
    requires Known(s, C2sKey(s.clients[i].v))
    ensures KeyExposed(s, s.clients[i].v)
  {
    var v := s.clients[i].v;
    if C2sKey(v) !in s.leaked {
      KnownSessionKey(s, v, C2sKey(v));
      StaticSecret(s, i);
      if IsFs(v.suite) { KnownEphemeral(s, i, j); }
    }
  }

  lemma KnownEphemeral(s: State, i: nat, j: nat)
    requires Shaped(s) && HelloOf(s, i, j) && s.clients[i].accepted && IsFs(s.clients[i].v.suite)
    requires Known(s, s.clients[i].v.sse)
    ensures s.clients[i].v.ek == Ek(EphSk(j)) && (s.clients[i].v.sse in s.leaked || EphSk(j) in s.leaked)
  {
    ServerViewShape(s, j);
    ClientKemOutputs(s, i);
    CoinsSecret(s, i, true);
    if s.clients[i].v.sse !in s.leaked { assert Known(s, EphSk(j)); }
  }

  /** What a client run has sent and received was on the network. */
  lemma ClientMessagesKnown(s: State, i: nat)
    requires Reachable(s) && i < |s.clients|
    ensures var v := s.clients[i].v;
            ClientHello(v) in s.know && v.ss == Decap(StaticSk, v.ct) &&
            (s.clients[i].accepted ==> ServerHello(v) in s.know && Finished(v) in s.know)
    ensures s.leaked.Keys <= s.know
  {
    ReachableInv(s);
    assert ClientOk(s, i);
  }

  lemma AnswerShape(s: State, i: nat)
    requires Reachable(s) && i < |s.clients| && s.clients[i].accepted && IsFs(s.clients[i].v.suite)
    ensures var v := s.clients[i].v;
            v.ek.Ek? && v.ctEph == Encap(v.ek, Coins(i, true)) && v.sse == Shared(v.ek, Coins(i, true))
  {
    ReachableInv(s);
    assert ClientOk(s, i);
  }

  lemma ExposedKeyFalls(s: State, i: nat, j: nat) returns (t: State)
    requires Reachable(s) && i < |s.clients| && s.clients[i].accepted && KeyExposed(s, s.clients[i].v)
    ensures Infers(s, t) && C2sKey(s.clients[i].v) in t.know
  {
    ClientMessagesKnown(s, i);
    InferNothing(s);
    t := s;
    var v := s.clients[i].v;
    if C2sKey(v) !in s.leaked {
      t := InferSecrets(s, v);
      if IsFs(v.suite) {
        AnswerShape(s, i);
        if v.sse in s.leaked { t := Infer(s, t, RFst(v.ctEph, ClientMac(v))); }
        else { t := InferEphemeral(s, t, v, v.ek.sk); }
      }
      t := InferDataKey(s, t, v, C2s);
    }
  }

  lemma InferSecrets(s: State, v: Session) returns (t: State)
    requires Infers(s, s) && {ClientHello(v), ServerHello(v)} <= s.know && s.leaked.Keys <= s.know
    requires HoldsBoth(s, v) && v.ss == Decap(StaticSk, v.ct)
    ensures Infers(s, t) && s.know <= t.know && {v.cn, v.sn, v.ss, Psk(v.dev), Th2(v)} <= t.know
  {
    t := InferPublicParts(s, s, v);
    assert Psk(v.dev) in s.leaked.Keys && (StaticSk in s.leaked.Keys || v.ss in s.leaked.Keys);
    t := InferIkm1(s, t, v);
  }

  /**
   * Mode A has no forward secrecy: whoever recorded a session and later obtains
   * dk_S and the PSK computes its c2s key, however long ago it ended.
   */
  lemma ModeARecordedSessionFalls(s: State, i: nat) returns (t: State)
    requires Reachable(s) && i < |s.clients| && s.clients[i].accepted && !IsFs(s.clients[i].v.suite)
    requires BothLost(s, s.clients[i].v)
    ensures Infers(s, t) && C2sKey(s.clients[i].v) in t.know
  {
    BothKnownIsHeld(s, i);
    t := ExposedKeyFalls(s, i, 0);
  }

  /** Any PSK and dk_S can be lost at any time, with nothing else happening. */
  lemma BothCanBeLost(s: State, dev: nat) returns (t: State)
    ensures Reaches(s, t) && {StaticSk, Psk(dev)} <= t.know && t.clients == s.clients && t.servers == s.servers
    ensures s.know <= t.know && t.log == s.log
  {
    var u := Apply(s, ALoseStatic);
    t := Apply(u, ALosePsk(dev));
    StepReaches(s, ALoseStatic);
    StepReaches(u, ALosePsk(dev));
    ReachesTransitive(s, u, t);
  }

  /** So every mode A session falls in the end: a state follows in which the adversary reads any record it sent. */
  lemma EveryModeASessionFalls(s: State, i: nat, n: nat) returns (t: State)
    requires Reachable(s) && i < |s.clients| && !IsFs(s.clients[i].v.suite) && n < |s.clients[i].sealed|
    ensures Reaches(s, t) && {C2sKey(s.clients[i].v), Payload(i, n)} <= t.know && t.clients == s.clients
  {
    ReachableInv(s);
    ActiveIsAccepted(s, i);
    var u := BothCanBeLost(s, s.clients[i].v.dev);
    ReachesTransitive(Init, s, u);
    t := ModeARecordedSessionFalls(u, i);
    ReachableRecordsKnown(u);
    assert RecordOf(u, i, n) in u.know && RecordOf(t, i, n) == RecordOf(u, i, n);
    t := InferPayload(u, t, i, n);
    ReachesTransitive(s, u, t);
  }

  lemma BothKnownIsHeld(s: State, i: nat)
    requires Reachable(s) && i < |s.clients| && BothLost(s, s.clients[i].v)
    ensures HoldsBoth(s, s.clients[i].v)
  {
    ReachableInv(s);
    StaticSecret(s, i);
    assert Known(s, Psk(s.clients[i].v.dev));
    if StaticSk in s.know { assert Known(s, StaticSk); }
  }

  // ---------------------------------------------------------------- exactly when a payload falls

  /** Every record sealed so far has been on the network and is among the logged encryptions. */
  ghost predicate RecordsKnown(s: State) {
    forall i: nat, n: nat :: i < |s.clients| && n < |s.clients[i].sealed| ==>
      RecordOf(s, i, n) in s.know && Encryption(C2sKey(s.clients[i].v), n, i) in s.encs
  }

  function RecordOf(s: State, i: nat, n: nat): Term
    requires i < |s.clients| && n < |s.clients[i].sealed|
  {
    Record(s.clients[i].v, n, s.clients[i].sealed[n], Payload(i, n))
  }

  lemma SealedByStep(s: State, a: Action, i: nat)
    requires Inv(s) && Enabled(s, a) && i < |Apply(s, a).clients|
    ensures var t := Apply(s, a);
            if i >= |s.clients| then t.clients[i].sealed == []
            else if a.AClientSend? && a.i == i
            then t.clients[i] == SentRun(s.clients[i], a.len, a.wrote) && |s.clients[i].sealed| == s.clients[i].sendSeq
            else t.clients[i].sealed == s.clients[i].sealed
  {
    if a.AClientSend? { RunningCount(s, a.i); } else { SealedUnchanged(s, a, i); }
  }

  lemma RunningCount(s: State, i: nat)
    requires ClientsOk(s) && i < |s.clients| && s.clients[i].phase == Running
    ensures |s.clients[i].sealed| == s.clients[i].sendSeq
  {
    assert ClientOk(s, i);
  }

  lemma SealedUnchanged(s: State, a: Action, i: nat)
    requires Enabled(s, a) && !a.AClientSend? && i < |Apply(s, a).clients|
    ensures Apply(s, a).clients[i].sealed == if i < |s.clients| then s.clients[i].sealed else []
  {
  }

  lemma StepKeepsRecordsKnown(s: State, a: Action)
    requires Inv(s) && Enabled(s, a) && RecordsKnown(s)
    ensures RecordsKnown(Apply(s, a))
  {
    var t := Apply(s, a);
    StepKeeps(s, a);
    EncryptionsStay(s, a);
    forall i: nat, n: nat | i < |t.clients| && n < |t.clients[i].sealed|
      ensures RecordOf(t, i, n) in t.know && Encryption(C2sKey(t.clients[i].v), n, i) in t.encs
    {
      SealedByStep(s, a, i);
      if n < |s.clients[i].sealed| { SealedStays(s, t, i, n); }
    }
  }

  lemma EncryptionsStay(s: State, a: Action)
    requires Enabled(s, a)
    ensures s.encs <= Apply(s, a).encs
  {
  }

  lemma SealedStays(s: State, t: State, i: nat, n: nat)
    requires ClientsOk(s) && Grows(s, t) && s.encs <= t.encs && i < |s.clients| && n < |s.clients[i].sealed|
    requires RecordOf(s, i, n) in s.know && Encryption(C2sKey(s.clients[i].v), n, i) in s.encs
    ensures i < |t.clients| && n < |t.clients[i].sealed| && RecordOf(t, i, n) in t.know
    ensures Encryption(C2sKey(t.clients[i].v), n, i) in t.encs
  {
    assert ClientOk(s, i);
    assert ClientGrows(s.clients[i], t.clients[i]);
  }

  lemma NextKeepsRecordsKnown(run: seq<State>, m: nat)
    requires Execution(run) && Inv(run[0]) && m + 1 < |run| && RecordsKnown(run[m])
    ensures RecordsKnown(run[m + 1])
  {
    ExecutionKeeps(run, m);
    assert Next(run[m], run[m + 1]);
    var a :| Step(run[m], a, run[m + 1]);
    StepKeepsRecordsKnown(run[m], a);
  }

  lemma {:induction false} RunKeepsRecordsKnown(run: seq<State>, m: nat)
    requires Execution(run) && Inv(run[0]) && RecordsKnown(run[0]) && m < |run|
    ensures RecordsKnown(run[m])
    decreases m
  {
    if m > 0 {
      RunKeepsRecordsKnown(run, m - 1);
      NextKeepsRecordsKnown(run, m - 1);
    }
  }

  lemma ReachableRecordsKnown(s: State)
    requires Reachable(s)
    ensures RecordsKnown(s)
  {
    InitInv();
    var run: seq<State> :| Execution(run) && run[0] == Init && run[|run| - 1] == s;
    RunKeepsRecordsKnown(run, |run| - 1);
  }

  /** The encryption log misses no record of any client. */
  lemma EveryEncryptionIsLogged(s: State, i: nat, n: nat)
    requires Reachable(s) && i < |s.clients| && n < |s.clients[i].sealed|
    ensures Encryption(C2sKey(s.clients[i].v), n, i) in s.encs
  {
    ReachableRecordsKnown(s);
    assert RecordOf(s, i, n) in s.know;
  }

  /** With the c2s key the adversary reads every record of the session. */
  lemma InferPayload(s0: State, s: State, i: nat, n: nat) returns (t: State)
    requires Infers(s0, s) && i < |s.clients| && n < |s.clients[i].sealed|
    requires {RecordOf(s, i, n), C2sKey(s.clients[i].v)} <= s.know
    ensures Infers(s0, t) && s.know <= t.know && Payload(i, n) in t.know
  {
    var v, len := s.clients[i].v, s.clients[i].sealed[n];
    t := Infer(s0, s, RSnd(Seq(n), Pair(Len(len), SealedWith(v, n, len, Payload(i, n)))));
    t := Infer(s0, t, RSnd(Len(len), SealedWith(v, n, len, Payload(i, n))));
    t := Infer(s0, t, ROpen(C2sKey(v), GcmNonce(n), Aad(v, n, len), Payload(i, n)));
  }

  /** A plaintext sent can be read by the adversary exactly when its session's key is exposed. */
  lemma PayloadFallsExactly(s: State, i: nat, j: nat, n: nat)
    requires Reachable(s) && i < |s.clients| && n < |s.clients[i].sealed|
    requires IsFs(s.clients[i].v.suite) ==> HelloOf(s, i, j)
    ensures (exists t :: Infers(s, t) && Payload(i, n) in t.know) <==> KeyExposed(s, s.clients[i].v)
  {
    ReachableInv(s);
    ActiveIsAccepted(s, i);
    if KeyExposed(s, s.clients[i].v) { var t := ExposedPayloadFalls(s, i, j, n); }
    forall t | Infers(s, t) && Payload(i, n) in t.know ensures KeyExposed(s, s.clients[i].v) {
      PayloadNeedsExposure(s, i, j, n, t);
    }
  }

  lemma ExposedPayloadFalls(s: State, i: nat, j: nat, n: nat) returns (t: State)
    requires Reachable(s) && i < |s.clients| && s.clients[i].accepted && n < |s.clients[i].sealed|
    requires KeyExposed(s, s.clients[i].v)
    ensures Infers(s, t) && Payload(i, n) in t.know
  {
    t := ExposedKeyFalls(s, i, j);
    ReachableRecordsKnown(s);
    assert RecordOf(s, i, n) in s.know && RecordOf(t, i, n) == RecordOf(s, i, n);
    t := InferPayload(s, t, i, n);
  }

  lemma PayloadNeedsExposure(s: State, i: nat, j: nat, n: nat, t: State)
    requires Reachable(s) && i < |s.clients| && s.clients[i].accepted && Infers(s, t) && Payload(i, n) in t.know
    requires IsFs(s.clients[i].v.suite) ==> HelloOf(s, i, j)
    ensures KeyExposed(s, s.clients[i].v)
  {
    ReachesTransitive(Init, s, t);
    PayloadNeedsKey(t, i, n);
    InferredKeyIsExposed(s, i, j, t);
  }

  // ---------------------------------------------------------------- reading a live end

  /** dk_S is no more known than before. */
  predicate KeepsStatic(s: State, t: State) { StaticSk !in s.know ==> StaticSk !in t.know }

  lemma InferenceKeepsStatic(s: State, u: State, t: State)
    requires Reachable(s) && Reaches(s, u) && Infers(u, t) && (StaticSk in u.leaked ==> StaticSk in s.leaked)
    ensures KeepsStatic(s, t)
  {
    ReachableInv(s);
    ReachesTransitive(Init, s, u);
    ReachesTransitive(Init, u, t);
    ReachableInv(t);
    if StaticSk in t.know { assert Known(t, StaticSk); assert StaticSk in s.leaked.Keys; }
  }

  /** Why no live end may have been read: the memory of a running client holds all its keys, and dk_S stays safe. */
  lemma ReadingClientGivesKey(s: State, i: nat) returns (t: State)
    requires Reachable(s) && i < |s.clients| && s.clients[i].phase == Running
    ensures Reaches(s, t) && t.clients == s.clients[i := s.clients[i].(revealed := true)]
    ensures (forall x :: SessionKey(s.clients[i].v, x) ==> x in t.know) && KeepsStatic(s, t)
  {
    t := Apply(s, ARevealClient(i));
    StepReaches(s, ARevealClient(i));
    ReachableInv(s);
    ClientHoldsNoStatic(s, i);
    InferNothing(t);
    InferenceKeepsStatic(s, t, t);
  }

  lemma ClientHoldsNoStatic(s: State, i: nat)
    requires Inv(s) && Enabled(s, ARevealClient(i))
    ensures StaticSk in Apply(s, ARevealClient(i)).leaked ==> StaticSk in s.leaked
  {
    if StaticSk in ClientSecrets(s.clients[i]) {
      RunningIsAccepted(s, i);
      LiveClientSecret(s.clients[i], StaticSk);
      ClientSecretShape(s, i, StaticSk);
    }
  }

  lemma ServerHoldsNoStatic(s: State, k: nat)
    requires Inv(s) && Enabled(s, ARevealServer(k))
    ensures StaticSk in Apply(s, ARevealServer(k)).leaked ==> StaticSk in s.leaked
  {
    if StaticSk in ServerSecrets(k, s.servers[k]) {
      OpenSecretShape(s, k);
      LiveServerSecret(k, s.servers[k], StaticSk);
      ServerSecretShape(s, k, StaticSk);
    }
  }

  /**
   * So is the memory of a live server run: of the client's own one in mode B, and in
   * mode A of any that answered the same hello, a replayed one included.
   */
  lemma ReadingServerGivesKey(s: State, i: nat, k: nat) returns (t: State)
    requires Reachable(s) && i < |s.clients| && s.clients[i].accepted && Enabled(s, ARevealServer(k))
    requires s.servers[k].v.ct == s.clients[i].v.ct && s.servers[k].v.dev == s.clients[i].v.dev
    requires IsFs(s.clients[i].v.suite) ==> HelloOf(s, i, k) && (s.servers[k].phase == Awaiting || Agrees(s, i, k))
    ensures Reaches(s, t) && t.clients == s.clients && C2sKey(s.clients[i].v) in t.know && KeepsStatic(s, t)
  {
    var u := Apply(s, ARevealServer(k));
    StepReaches(s, ARevealServer(k));
    ReachesTransitive(Init, s, u);
    ReadServerExposes(s, i, k);
    t := ExposedKeyFalls(u, i, k);
    ReachableInv(s);
    ServerHoldsNoStatic(s, k);
    InferenceKeepsStatic(s, u, t);
    ReachesTransitive(s, u, t);
  }

  lemma ReadServerExposes(s: State, i: nat, k: nat)
    requires Reachable(s) && i < |s.clients| && s.clients[i].accepted && Enabled(s, ARevealServer(k))
    requires s.servers[k].v.ct == s.clients[i].v.ct && s.servers[k].v.dev == s.clients[i].v.dev
    requires IsFs(s.clients[i].v.suite) ==> HelloOf(s, i, k) && (s.servers[k].phase == Awaiting || Agrees(s, i, k))
    ensures KeyExposed(Apply(s, ARevealServer(k)), s.clients[i].v)
  {
    ClientMessagesKnown(s, i);
    ReachableInv(s);
    ServerViewShape(s, k);
    ReadServerLoses(s, k);
  }

  lemma ReadServerLoses(s: State, k: nat)
    requires Enabled(s, ARevealServer(k))
    ensures var r := s.servers[k]; var u := Apply(s, ARevealServer(k));
            Psk(r.v.dev) in u.leaked && r.v.ss in u.leaked &&
            (IsFs(r.v.suite) ==> if r.phase == Awaiting then EphSk(k) in u.leaked else r.v.sse in u.leaked)
  {
  }

  // ---------------------------------------------------------------- both lost before acceptance

  /** The adversary's own ServerHello for a waiting client, in mode B with its own ek_E. */
  function Forged(v: Session): Session { Offered(v, Own(0), Own(1), if IsFs(v.suite) then Ek(Own(2)) else Empty) }

  lemma InferForgery(s: State, v: Session) returns (t: State)
    requires ClientHello(v) in s.know && BothLost(s, v) && v.ss == Decap(StaticSk, v.ct) && Infers(s, s)
    ensures Infers(s, t) && {v.cn, v.ss, Th2(Forged(v)), ServerHello(Forged(v)), Own(0), Own(2)} <= t.know
  {
    t := InferHelloParts(s, s, v);
    t := InferIkm1(s, t, v);
    t := InferOwnValues(s, t);
    t := InferForgedReply(s, t, v);
  }

  lemma InferOwnValues(s0: State, s: State) returns (t: State)
    requires Infers(s0, s)
    ensures Infers(s0, t) && s.know <= t.know && {Own(0), Own(1), Own(2), Empty, Ek(Own(2))} <= t.know
  {
    t := Infer(s0, s, RPublic(Own(0)));
    t := Infer(s0, t, RPublic(Own(1)));
    t := Infer(s0, t, RPublic(Own(2)));
    t := Infer(s0, t, RPublic(Empty));
    t := Infer(s0, t, REk(Own(2)));
  }

  lemma InferForgedReply(s0: State, s: State, v: Session) returns (t: State)
    requires Infers(s0, s)
    requires {ClientHello(v), v.cn, Pair(v.ss, Psk(v.dev)), Own(0), Own(1), Empty, Ek(Own(2))} <= s.know
    ensures Infers(s0, t) && s.know <= t.know && {Th2(Forged(v)), ServerHello(Forged(v))} <= t.know
  {
    var f := Forged(v);
    t := InferTh2(s0, s, f);
    t := InferPrk(s0, t, f, Pair(f.ss, Psk(f.dev)));
    t := InferKey(s0, t, Prk1(f), SrvConfirm, Th2(f));
    t := InferMac(s0, t, f);
  }

  lemma InferMac(s0: State, s: State, f: Session) returns (t: State)
    requires Infers(s0, s) && {SrvKey(f), Th2(f), f.sn, f.sid, f.ek} <= s.know
    ensures Infers(s0, t) && s.know <= t.know && ServerHello(f) in t.know
  {
    t := Infer(s0, s, RMac(SrvKey(f), Th2(f)));
    t := Infer(s0, t, RPair(f.ek, ServerMac(f)));
    t := Infer(s0, t, RPair(f.sid, Pair(f.ek, ServerMac(f))));
    t := Infer(s0, t, RPair(f.sn, Pair(f.sid, Pair(f.ek, ServerMac(f)))));
  }

  lemma SameTh2(v: Session, w: Session)
    requires SameHello(v, w)
    ensures Th2(v) == Th2(w)
  {
  }

  /** The client's answer to the forged ServerHello is enough for its c2s key. */
  lemma ExploitForgery(s: State, v: Session, i: nat) returns (t: State)
    requires Infers(s, s) && WellFormed(v)
    requires var w := Answered(i, Forged(v));
             {Finished(w), v.cn, v.ss, Psk(v.dev), Th2(Forged(v)), Own(0), Own(2)} <= s.know
    ensures Infers(s, t) && C2sKey(Answered(i, Forged(v))) in t.know
  {
    var w := Answered(i, Forged(v));
    SameTh2(Forged(v), w);
    t := s;
    if IsFs(v.suite) { t := InferEphemeral(s, s, w, Own(2)); }
    t := InferDataKey(s, t, w, C2s);
  }

  /** The memory of a client that still waits is enough to be its server, with dk_S still safe. */
  lemma ReadingWaitingClientImpersonates(s: State, i: nat) returns (t: State)
    requires Reachable(s) && i < |s.clients| && s.clients[i].phase == Waiting
    ensures Reaches(s, t) && i < |t.clients| && t.clients[i].accepted && C2sKey(t.clients[i].v) in t.know
    ensures forall j: nat :: !HelloOf(t, i, j)
  {
    var u := Apply(s, ARevealClient(i));
    StepReaches(s, ARevealClient(i));
    ReachesTransitive(Init, s, u);
    t := BothLostImpersonatesServer(u, i);
    ReachesTransitive(s, u, t);
  }

  lemma OwnNonceIsNoServers(s: State, i: nat)
    requires Reachable(s) && i < |s.clients| && s.clients[i].v.sn == Own(0)
    ensures forall j: nat :: !HelloOf(s, i, j)
  {
    ReachableInv(s);
    forall j: nat ensures !HelloOf(s, i, j) {
      if HelloOf(s, i, j) { SameHelloSameRun(s, j, s.clients[i].v); }
    }
  }

  lemma WaitingViewWellFormed(s: State, i: nat)
    requires Reachable(s) && i < |s.clients| && s.clients[i].phase == Waiting
    ensures WellFormed(s.clients[i].v)
  {
    ReachableInv(s);
    assert ClientOk(s, i);
  }

  /**
   * Why client-side agreement and forward secrecy need one defence when the client
   * accepts: with both lost while it waits, in either mode, the adversary answers
   * in the server's place. The client accepts though no server run has its view,
   * and the adversary holds its c2s key.
   */
  lemma BothLostImpersonatesServer(s: State, i: nat) returns (t: State)
    requires Reachable(s) && i < |s.clients| && s.clients[i].phase == Waiting && BothLost(s, s.clients[i].v)
    ensures Reaches(s, t) && i < |t.clients| && t.clients[i].accepted && C2sKey(t.clients[i].v) in t.know
    ensures forall j: nat :: !HelloOf(t, i, j)
  {
    ClientMessagesKnown(s, i);
    WaitingViewWellFormed(s, i);
    InferNothing(s);
    var v := s.clients[i].v;
    var f := Forged(v);
    var s1 := InferForgery(s, v);
    var s2 := HonestAcceptance(s1, i, s1.clients[i], f);
    InferNothing(s2);
    ReachesTransitive(s, s1, s2);
    t := ExploitForgery(s2, v, i);
    ReachesTransitive(s, s2, t);
    ReachesTransitive(Init, s, t);
    OwnNonceIsNoServers(t, i);
  }

  // ---------------------------------------------------------------- the PSK lost

  /** The hello of a client that exists only at the adversary. */
  function Feigned(j: nat, dev: nat, suite: nat): ServerRun {
    FreshServer(j, suite, dev, Own(0), Encap(Ek(StaticSk), Own(1)))
  }

  function FeignedAnswer(r: ServerRun): Term { if IsFs(r.v.suite) then Encap(r.v.ek, Own(2)) else Empty }

  lemma InferFeignedHello(s: State, r: ServerRun, j: nat) returns (t: State)
    requires Infers(s, s) && r == Feigned(j, r.v.dev, r.v.suite) && Psk(r.v.dev) in s.know
    ensures Infers(s, t) && {ClientHello(r.v), Own(0), Own(2), r.v.ss} <= t.know
  {
    var v := r.v;
    t := Infer(s, s, RPublic(Ek(StaticSk)));
    t := Infer(s, t, RPublic(Own(0)));
    t := Infer(s, t, RPublic(Own(1)));
    t := Infer(s, t, RPublic(Own(2)));
    t := Infer(s, t, REncap(Ek(StaticSk), Own(1)));
    t := Infer(s, t, RShared(Ek(StaticSk), Own(1)));
    t := InferBody(s, t, v);
    t := Infer(s, t, RPublic(Tag(Hello)));
    t := Infer(s, t, RPair(Tag(Hello), HelloBody(v)));
    t := Infer(s, t, RMac(Psk(v.dev), Pair(Tag(Hello), HelloBody(v))));
    t := Infer(s, t, RPair(HelloBody(v), HelloMac(v)));
  }

  lemma InferBody(s0: State, s: State, v: Session) returns (t: State)
    requires Infers(s0, s) && {Ek(StaticSk), v.cn, v.ct} <= s.know
    ensures Infers(s0, t) && s.know <= t.know && HelloBody(v) in t.know
  {
    var d := Pair(v.cn, v.ct);
    var c := Pair(KeyId(Ek(StaticSk)), d);
    var b := Pair(Dev(v.dev), c);
    t := Infer(s0, s, RPair(v.cn, v.ct));
    t := Infer(s0, t, RKeyId(Ek(StaticSk)));
    t := Infer(s0, t, RPair(KeyId(Ek(StaticSk)), d));
    t := Infer(s0, t, RPublic(Dev(v.dev)));
    t := Infer(s0, t, RPair(Dev(v.dev), c));
    t := Infer(s0, t, RPublic(Byte(v.suite)));
    t := Infer(s0, t, RPair(Byte(v.suite), b));
    t := Infer(s0, t, RPublic(Byte(VERSION)));
    t := Infer(s0, t, RPair(Byte(VERSION), Pair(Byte(v.suite), b)));
  }

  lemma InferFeignedAnswer(s0: State, s: State, r: ServerRun) returns (t: State)
    requires Infers(s0, s) && {r.v.ek, Own(2)} <= s.know
    ensures Infers(s0, t) && s.know <= t.know && FeignedAnswer(r) in t.know
    ensures IsFs(r.v.suite) ==> Shared(r.v.ek, Own(2)) in t.know
  {
    if IsFs(r.v.suite) {
      t := Infer(s0, s, REncap(r.v.ek, Own(2)));
      t := Infer(s0, t, RShared(r.v.ek, Own(2)));
    } else {
      t := Infer(s0, s, RPublic(Empty));
    }
  }

  lemma InferFinished(s0: State, s: State, w: Session) returns (t: State)
    requires Infers(s0, s) && {w.ctEph, DataTh(w), CliKey(w), ServerMac(w)} <= s.know
    ensures Infers(s0, t) && s.know <= t.know && Finished(w) in t.know
  {
    t := Infer(s0, s, RPair(DataTh(w), ServerMac(w)));
    t := Infer(s0, t, RMac(CliKey(w), Pair(DataTh(w), ServerMac(w))));
    t := Infer(s0, t, RPair(w.ctEph, ClientMac(w)));
  }

  lemma InferFinishFrom(s0: State, s: State, w: Session) returns (t: State)
    requires Infers(s0, s) && {w.cn, w.sn, w.ss, Psk(w.dev), Th2(w), w.ctEph, ServerMac(w)} <= s.know
    requires IsFs(w.suite) ==> w.sse in s.know
    ensures Infers(s0, t) && {Finished(w), C2sKey(w)} <= t.know
  {
    t := InferDataKey(s0, s, w, C2s);
    t := InferDataKey(s0, t, w, CliConfirm);
    t := InferFinished(s0, t, w);
  }

  /** The view a server run ends with when its answer comes from Own(2). */
  lemma FeignedView(j: nat, dev: nat, suite: nat)
    ensures var r := Feigned(j, dev, suite); var w := Concluded(j, r.v, FeignedAnswer(r));
            SameHello(r.v, w) && Th2(w) == Th2(r.v) && ServerMac(w) == ServerMac(r.v) && w.ctEph == FeignedAnswer(r) &&
            (IsFs(suite) ==> w.sse == Shared(r.v.ek, Own(2)))
  {
    var r := Feigned(j, dev, suite);
    SameTh2(r.v, Concluded(j, r.v, FeignedAnswer(r)));
  }

  /** Once the run has replied, the adversary computes its ClientFinished and its c2s key. */
  lemma InferFeignedFinish(s: State, r: ServerRun, j: nat) returns (t: State)
    requires Infers(s, s) && r == Feigned(j, r.v.dev, r.v.suite)
    requires {ClientHello(r.v), ServerHello(r.v), Own(0), Own(2), r.v.ss, Psk(r.v.dev)} <= s.know
    ensures var w := Concluded(j, r.v, FeignedAnswer(r)); Infers(s, t) && {Finished(w), C2sKey(w)} <= t.know
  {
    var w := Concluded(j, r.v, FeignedAnswer(r));
    FeignedView(j, r.v.dev, r.v.suite);
    t := InferPublicParts(s, s, r.v);
    t := InferFeignedAnswer(s, t, r);
    t := InferFinishFrom(s, t, w);
  }

  lemma FeignedAdmitted(s: State, j: nat, dev: nat, suite: nat)
    requires j == |s.servers| && dev in s.devices && IsSuite(suite) && ClientHello(Feigned(j, dev, suite).v) in s.know
    ensures var r := Feigned(j, dev, suite); var a := AServerReceive(dev, suite, r.v.cn, r.v.ct);
            Enabled(s, a) && var t := Apply(s, a);
            Reaches(s, t) && |t.servers| == j + 1 && t.servers[j] == r && s.know <= t.know &&
            ServerHello(r.v) in t.know && t.leaked == s.leaked
  {
    var r := Feigned(j, dev, suite);
    StepReaches(s, AServerReceive(dev, suite, r.v.cn, r.v.ct));
  }

  lemma FeignedCompletes(s: State, j: nat, r: ServerRun)
    requires j < |s.servers| && s.servers[j] == r == Feigned(j, r.v.dev, r.v.suite)
    requires Finished(Concluded(j, r.v, FeignedAnswer(r))) in s.know
    ensures var w := Concluded(j, r.v, FeignedAnswer(r)); var a := AServerFinish(j, FeignedAnswer(r), ClientMac(w));
            Enabled(s, a) && var t := Apply(s, a);
            Reaches(s, t) && j < |t.servers| && t.servers[j].v == w && t.servers[j].phase == Open &&
            t.servers[j].completed && t.know == s.know && t.leaked == s.leaked
  {
    var w := Concluded(j, r.v, FeignedAnswer(r));
    StepReaches(s, AServerFinish(j, FeignedAnswer(r), ClientMac(w)));
  }

  lemma OwnNonceIsNoClients(s: State, j: nat)
    requires Reachable(s) && j < |s.servers| && s.servers[j].v.cn == Own(0)
    ensures forall i: nat :: !Agrees(s, i, j)
  {
    ReachableInv(s);
    forall i: nat ensures !Agrees(s, i, j) {
      if Agrees(s, i, j) { ClientViewWellFormed(s, i); }
    }
  }

  /**
   * Why server-side agreement needs the PSK: with it, and with nothing else lost,
   * the adversary runs a client of its own to the end in any suite. The server run
   * agrees with no client run, and the adversary holds its c2s key.
   */
  lemma LostPskImpersonates(s: State, dev: nat, suite: nat) returns (t: State)
    requires Reachable(s) && dev in s.devices && IsSuite(suite) && Psk(dev) in s.know
    ensures Reaches(s, t) && KeepsStatic(s, t)
    ensures var j := |s.servers|;
            j < |t.servers| && t.servers[j].completed && t.servers[j].phase == Open &&
            t.servers[j].v.dev == dev && t.servers[j].v.suite == suite && C2sKey(t.servers[j].v) in t.know &&
            forall i: nat :: !Agrees(t, i, j)
  {
    var j := |s.servers|;
    var r := Feigned(j, dev, suite);
    InferNothing(s);
    var s1 := InferFeignedHello(s, r, j);
    FeignedAdmitted(s1, j, dev, suite);
    var s2 := Apply(s1, AServerReceive(dev, suite, r.v.cn, r.v.ct));
    InferNothing(s2);
    var s3 := InferFeignedFinish(s2, r, j);
    FeignedCompletes(s3, j, r);
    var w := Concluded(j, r.v, FeignedAnswer(r));
    t := Apply(s3, AServerFinish(j, FeignedAnswer(r), ClientMac(w)));
    FeignedView(j, dev, suite);
    ReachesTransitive(s, s1, s2);
    ReachesTransitive(s, s2, s3);
    ReachesTransitive(s, s3, t);
    ReachesTransitive(Init, s, t);
    OwnNonceIsNoClients(t, j);
    InferNothing(t);
    InferenceKeepsStatic(s, t, t);
  }

  // ---------------------------------------------------------------- records

  /** The adversary's own record for a server run whose c2s key it holds. */
  lemma InferForgedRecord(s: State, v: Session, n: nat) returns (t: State)
    requires Infers(s, s) && {C2sKey(v), ServerHello(v)} <= s.know
    ensures Infers(s, t) && Record(v, n, 0, Own(0)) in t.know
  {
    t := InferReplyParts(s, s, v);
    t := Infer(s, t, RPublic(Seq(n)));
    t := Infer(s, t, RPublic(Len(0)));
    t := Infer(s, t, RPublic(GcmNonce(n)));
    t := Infer(s, t, RPublic(Own(0)));
    t := Infer(s, t, RPair(Seq(n), Len(0)));
    t := Infer(s, t, RPair(v.sid, Pair(Seq(n), Len(0))));
    t := InferSealed(s, t, v, n);
  }

  lemma InferSealed(s0: State, s: State, v: Session, n: nat) returns (t: State)
    requires Infers(s0, s) && {C2sKey(v), GcmNonce(n), Aad(v, n, 0), Own(0), Seq(n), Len(0)} <= s.know
    ensures Infers(s0, t) && Record(v, n, 0, Own(0)) in t.know
  {
    t := Infer(s0, s, RSeal(C2sKey(v), GcmNonce(n), Aad(v, n, 0), Own(0)));
    t := Infer(s0, t, RPair(Len(0), SealedWith(v, n, 0, Own(0))));
    t := Infer(s0, t, RPair(Seq(n), Pair(Len(0), SealedWith(v, n, 0, Own(0)))));
  }

  lemma OpenRunKnown(s: State, j: nat)
    requires Reachable(s) && j < |s.servers|
    ensures s.servers[j].last >= -1 && ServerHello(s.servers[j].v) in s.know
  {
    ReachableInv(s);
    assert ServerOk(s, j);
  }

  lemma ReadForged(s: State, j: nat, n: nat) returns (t: State)
    requires j < |s.servers| && s.servers[j].phase == Open && n > s.servers[j].last
    requires Record(s.servers[j].v, n, 0, Own(0)) in s.know
    ensures Reaches(s, t) && |t.servers| == |s.servers| && t.servers[j].got == s.servers[j].got + [(n, Own(0))]
  {
    var a := AServerRead(j, n, 0, SealedWith(s.servers[j].v, n, 0, Own(0)));
    StepReaches(s, a);
    t := Apply(s, a);
  }

  /**
   * Record integrity ends exactly with the secrecy of the key: once the c2s key of
   * an open session is known, the server can be made to deliver something no client
   * ever sealed, and until then UnknownKeyDeliversClient holds.
   */
  lemma KnownKeyForgesRecords(s: State, j: nat) returns (t: State)
    requires Reachable(s) && j < |s.servers| && s.servers[j].phase == Open && C2sKey(s.servers[j].v) in s.know
    ensures Reaches(s, t) && j < |t.servers| && s.servers[j].last + 1 >= 0
    ensures t.servers[j].got == s.servers[j].got + [(s.servers[j].last + 1, Own(0))]
    ensures forall i: nat :: !DeliveredFrom(t, t, i, j)
  {
    OpenRunKnown(s, j);
    InferNothing(s);
    var n := s.servers[j].last + 1;
    var v := s.servers[j].v;
    var u := InferForgedRecord(s, v, n);
    t := ReadForged(u, j, n);
    ReachesTransitive(s, u, t);
    assert t.servers[j].got[|s.servers[j].got|] == (n, Own(0));
  }

  /** A client and a server that agree get the client's next record across. */
  lemma HonestRecordArrives(s: State, i: nat, j: nat, len: nat) returns (t: State)
    requires Agrees(s, i, j) && s.clients[i].phase == Running && s.servers[j].phase == Open
    requires s.servers[j].last < s.clients[i].sendSeq < 0x1_0000_0000_0000_0000
    ensures Reaches(s, t) && Agrees(t, i, j) && t.clients[i].phase == Running && t.servers[j].phase == Open
    ensures t.clients[i] == SentRun(s.clients[i], len, true)
    ensures t.servers == s.servers[j := ReadRun(s.servers[j], s.clients[i].sendSeq, Payload(i, s.clients[i].sendSeq))]
    ensures t.leaked == s.leaked
  {
    var n := s.clients[i].sendSeq;
    var u := Apply(s, AClientSend(i, len, true));
    StepReaches(s, AClientSend(i, len, true));
    t := ReadSealed(u, i, j, n, len);
    ReachesTransitive(s, u, t);
  }

  lemma ReadSealed(s: State, i: nat, j: nat, n: nat, len: nat) returns (t: State)
    requires Agrees(s, i, j) && s.servers[j].phase == Open && s.servers[j].last < n
    requires Record(s.clients[i].v, n, len, Payload(i, n)) in s.know
    ensures Reaches(s, t) && t == s.(servers := s.servers[j := ReadRun(s.servers[j], n, Payload(i, n))])
  {
    var a := AServerRead(j, n, len, SealedWith(s.servers[j].v, n, len, Payload(i, n)));
    StepReaches(s, a);
    t := Apply(s, a);
  }

  /**
   * The PSK may go once a session stands: from any state with dk_S and this PSK
   * safe and no server run read, a state follows in which a record has been
   * delivered, the PSK is lost, and the session's records are still protected.
   */
  lemma DeliveryOutlivesPsk(s: State, dev: nat, suite: nat, len: nat) returns (t: State)
    requires Reachable(s) && dev in s.devices && IsSuite(suite) && Psk(dev) !in s.know && StaticSk !in s.know
    requires forall r <- s.servers :: !r.revealed
    ensures var i, j := |s.clients|, |s.servers|;
            Reaches(s, t) && j < |t.servers| && DeliveredFrom(t, t, i, j) && t.servers[j].got == [(0, Payload(i, 0))] &&
            t.servers[j].phase == Open && Psk(dev) in t.know && t.servers[j].v.dev == dev && RecordsProtected(t, j)
  {
    var i, j := |s.clients|, |s.servers|;
    ReachableInv(s);
    var u := HonestSessionCompletes(s, dev, suite);
    var w := HonestRecordArrives(u, i, j, len);
    ReachesTransitive(s, u, w);
    StepReaches(w, ALosePsk(dev));
    t := Apply(w, ALosePsk(dev));
    ReachesTransitive(s, w, t);
    ReachesTransitive(Init, s, t);
    InferNothing(t);
    InferenceKeepsStatic(s, t, t);
    UnreadIsProtected(t, i, j);
  }

  lemma UnreadIsProtected(s: State, i: nat, j: nat)
    requires Reachable(s) && Agrees(s, i, j) && s.servers[j].clean && StaticSk !in s.know
    requires !s.clients[i].revealed && forall r <- s.servers :: !r.revealed
    ensures RecordsProtected(s, j)
  {
    ReachableInv(s);
    ClientViewWellFormed(s, i);
  }
}
