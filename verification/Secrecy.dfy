/**
 * Which keys stay out of the adversary's reach, and what a valid MAC or record
 * therefore proves about who made it.
 */
module Secrecy {
  import opened Terms
  import opened Protocol
  import opened Invariants

  // ---------------------------------------------------------------- shapes

  /** Shared secrets in a server's view are KEM outputs. */
  predicate KemOutput(t: Term) { t.Shared? || t.Rejected? }

  lemma ServerKemOutputs(s: State, j: nat)
    requires ServersOk(s) && j < |s.servers|
    ensures KemOutput(s.servers[j].v.ss)
    ensures s.servers[j].completed && IsFs(s.servers[j].v.suite) ==> KemOutput(s.servers[j].v.sse)
  {
    assert ServerOk(s, j);
  }

  /** Every MAC sent is keyed by a PSK or by an HKDF output. */
  lemma LoggedMac(s: State, k: Term, m: Term)
    requires LogOk(s)
    requires Mac(k, m) in s.log
    ensures k.Psk? || (k.Mac? && k.key.Mac?)
    ensures k.Mac? ==> k.msg.Pair? && k.msg.l.Tag?
  {
    var t := Mac(k, m);
    assert SentBy(s, t, s.log[t]);
  }

  predicate SessionKey(v: Session, t: Term) { t == SrvKey(v) || t in DataKeys(v) }

  lemma ServerKeyShapes(v: Session)
    ensures forall t <- DataKeys(v) ::
              t.Mac? && t.msg.Pair? && t.msg.l.Tag? && t.msg.l.name != SrvConfirm && t.key == DataPrk(v)
  {
  }

  lemma ClientKemOutputs(s: State, i: nat)
    requires ClientsOk(s) && i < |s.clients|
    ensures s.clients[i].v.ss == Shared(Ek(StaticSk), Coins(i, false))
    ensures s.clients[i].accepted && IsFs(s.clients[i].v.suite) ==>
              s.clients[i].v.sse == Shared(s.clients[i].v.ek, Coins(i, true))
  {
    assert ClientOk(s, i);
  }

  /** What a live client can lose: session keys, its static shared secret, in mode B the ephemeral one. */
  lemma ClientSecretShape(s: State, i: nat, t: Term)
    requires ClientsOk(s) && i < |s.clients| && ClientSecret(s.clients[i], t)
    ensures if t.Mac? then s.clients[i].accepted && SessionKey(s.clients[i].v, t)
            else t == s.clients[i].v.ss ||
                 (s.clients[i].accepted && IsFs(s.clients[i].v.suite) && t == s.clients[i].v.sse)
    ensures t.Mac? || (t.Shared? && t.coins.Coins? && t.coins.run == i)
  {
    ClientKemOutputs(s, i);
    ServerKeyShapes(s.clients[i].v);
  }

  /** A leaked HMAC value is a session key of a run whose PSK leaked with it. */
  lemma LeakedMac(s: State, k: Term, m: Term)
    requires LeakOk(s) && ServersOk(s) && ClientsOk(s)
    requires Mac(k, m) in s.leaked
    ensures match s.leaked[Mac(k, m)]
            case FromClient(i) => i < |s.clients| && s.clients[i].revealed && s.clients[i].accepted &&
                                  Psk(s.clients[i].v.dev) in s.leaked && SessionKey(s.clients[i].v, Mac(k, m))
            case FromServer(j) => j < |s.servers| && s.servers[j].revealed && Psk(s.servers[j].v.dev) in s.leaked &&
                                  SessionKey(s.servers[j].v, Mac(k, m)) &&
                                  (Mac(k, m) in DataKeys(s.servers[j].v) ==>
                                     s.servers[j].completed || !IsFs(s.servers[j].v.suite))
            case _ => false
  {
    var t := Mac(k, m);
    assert LostBy(s, t, s.leaked[t]);
    match s.leaked[t]
    case FromClient(i) => ClientSecretShape(s, i, t);
    case FromServer(j) => ServerKemOutputs(s, j); ServerKeyShapes(s.servers[j].v);
    case _ =>
  }

  lemma SessionKeyShape(v: Session, t: Term)
    requires SessionKey(v, t)
    ensures t.Mac? && t.key.Mac? && t.key.key.Pair? && t.msg.Pair? && t.msg.l.Tag?
  {
    ServerKeyShapes(v);
  }

  /** It is an output of HKDF-Expand under an output of HKDF-Extract. */
  lemma LeakedMacShape(s: State, k: Term, m: Term)
    requires LeakOk(s) && ServersOk(s) && ClientsOk(s)
    requires Mac(k, m) in s.leaked
    ensures k.Mac? && k.key.Pair? && m.Pair? && m.l.Tag?
  {
    LeakedMac(s, k, m);
    match s.leaked[Mac(k, m)]
    case FromClient(i) => SessionKeyShape(s.clients[i].v, Mac(k, m));
    case FromServer(j) => SessionKeyShape(s.servers[j].v, Mac(k, m));
  }

  /** A pseudorandom key is neither sent nor lost: reading a live run's keys does not give its PRK. */
  lemma PrkNeverGiven(s: State, salt: Term, ikm: Term)
    requires LogOk(s) && LeakOk(s) && ServersOk(s) && ClientsOk(s)
    requires salt.Pair?
    ensures Mac(salt, ikm) !in s.log && Mac(salt, ikm) !in s.leaked
  {
    var t := Mac(salt, ikm);
    if t in s.log { LoggedMac(s, salt, ikm); }
    if t in s.leaked { LeakedMacShape(s, salt, ikm); }
  }

  /** An HKDF output is never sent as a MAC. */
  lemma KeyNotLogged(s: State, salt: Term, ikm: Term, m: Term)
    requires LogOk(s)
    requires salt.Pair?
    ensures Mac(Mac(salt, ikm), m) !in s.log
  {
    var t := Mac(Mac(salt, ikm), m);
    if t in s.log { LoggedMac(s, Mac(salt, ikm), m); }
  }

  ghost predicate Shaped(s: State) { LogOk(s) && LeakOk(s) && ServersOk(s) && ClientsOk(s) }

  /** An HKDF output the adversary knows was lost as such, or all inputs to HKDF-Extract are known. */
  lemma KnownKey(s: State, salt: Term, ikm: Term, m: Term)
    requires Shaped(s) && salt.Pair?
    requires Known(s, Mac(Mac(salt, ikm), m))
    ensures Mac(Mac(salt, ikm), m) in s.leaked || Known(s, ikm)
  {
    KeyNotLogged(s, salt, ikm, m);
    PrkNeverGiven(s, salt, ikm);
    if Mac(Mac(salt, ikm), m) !in s.leaked { assert Known(s, Mac(salt, ikm)); }
  }

  lemma ServerSecretShape(s: State, j: nat, t: Term)
    requires ServersOk(s) && j < |s.servers| && ServerSecret(j, s.servers[j], t)
    ensures t.EphSk? || t.Mac? || KemOutput(t)
  {
    ServerKemOutputs(s, j);
    ServerKeyShapes(s.servers[j].v);
  }

  /** Only these kinds of term are ever lost. */
  lemma LostShape(s: State, t: Term)
    requires LeakOk(s) && ServersOk(s) && ClientsOk(s) && t in s.leaked
    ensures t.StaticSk? || t.Psk? || t.EphSk? || t.Payload? || KemOutput(t) || t.Mac?
  {
    assert LostBy(s, t, s.leaked[t]);
    match s.leaked[t]
    case FromClient(k) => ClientSecretShape(s, k, t);
    case FromServer(j) => ServerSecretShape(s, j, t);
    case _ =>
  }

  lemma CoinsSecret(s: State, i: nat, eph: bool)
    requires LeakOk(s) && ServersOk(s) && ClientsOk(s)
    ensures !Known(s, Coins(i, eph))
  {
    if Coins(i, eph) in s.leaked { LostShape(s, Coins(i, eph)); }
  }

  /** The static shared secret of an honest client falls only with dk_S or by being read from a live run. */
  lemma StaticSecret(s: State, i: nat)
    requires LeakOk(s) && ServersOk(s) && ClientsOk(s) && i < |s.clients|
    ensures Known(s, s.clients[i].v.ss) <==> StaticSk in s.leaked || s.clients[i].v.ss in s.leaked
  {
    assert ClientOk(s, i);
    CoinsSecret(s, i, false);
    assert Known(s, StaticSk) <==> StaticSk in s.leaked;
  }

  // ---------------------------------------------------------------- equal keys, equal views

  /** In mode A a view has no ephemeral part. */
  predicate WellFormed(v: Session) { !IsFs(v.suite) ==> v.ctEph == v.sse == Empty }

  /** One data key pins down the whole view: HKDF's info binds the transcript, its input the secrets. */
  lemma DataKeyInjective(v: Session, w: Session, name: Label)
    requires WellFormed(v) && WellFormed(w)
    requires KeyOf(DataPrk(v), name, DataTh(v)) == KeyOf(DataPrk(w), name, DataTh(w))
    ensures v == w
  {
    DataThInjective(v, w);
  }

  lemma DataThInjective(v: Session, w: Session)
    requires DataTh(v) == DataTh(w)
    ensures IsFs(v.suite) == IsFs(w.suite) && Th2(v) == Th2(w)
    ensures IsFs(v.suite) ==> v.ctEph == w.ctEph
  {
    assert Th2(v).m.l.Pair? && Th2(w).m.l.Pair?;
    if IsFs(v.suite) { assert DataTh(v).m.l == Th2(v); }
    if IsFs(w.suite) { assert DataTh(w).m.l == Th2(w); }
  }

  lemma SrvKeyInjective(v: Session, w: Session)
    requires SrvKey(v) == SrvKey(w)
    ensures SameHello(v, w)
  {
    assert Th2(v) == Th2(w);
    assert Prk1(v) == Prk1(w);
  }

  // ---------------------------------------------------------------- server authentication

  lemma Ikm1NeedsPsk(s: State, v: Session)
    requires Known(s, Pair(v.ss, Psk(v.dev)))
    ensures Psk(v.dev) in s.leaked && Known(s, v.ss)
  {
    assert Known(s, Psk(v.dev));
  }

  /** A client run that holds this confirmation key faces the matching server run, or both defences are lost. */
  lemma ClientSrvKey(s: State, k: nat, v: Session)
    requires ClientsOk(s) && k < |s.clients| && s.clients[k].accepted && SessionKey(s.clients[k].v, SrvKey(v))
    requires !HoldsBoth(s, v)
    ensures ServerMatch(s, v)
  {
    ServerKeyShapes(s.clients[k].v);
    SrvKeyInjective(s.clients[k].v, v);
    assert ClientOk(s, k);
  }

  /** The server confirmation key is lost only with a matching run, or when both defences are. */
  lemma KnownSrvKey(s: State, i: nat, v: Session)
    requires Shaped(s) && i < |s.clients| && v.ss == s.clients[i].v.ss && v.dev == s.clients[i].v.dev
    requires Known(s, SrvKey(v)) && !HoldsBoth(s, v)
    ensures ServerMatch(s, v)
  {
    KnownKey(s, Salt(v), Pair(v.ss, Psk(v.dev)), Pair(Tag(SrvConfirm), Pair(Th2(v), Byte(1))));
    if SrvKey(v) in s.leaked {
      LeakedMac(s, Prk1(v), SrvKey(v).msg);
      match s.leaked[SrvKey(v)]
      case FromServer(j) =>
        ServerKeyShapes(s.servers[j].v);
        SrvKeyInjective(s.servers[j].v, v);
        assert ServerOk(s, j);
      case FromClient(k) => ClientSrvKey(s, k, v);
    } else {
      StaticSecret(s, i);
      Ikm1NeedsPsk(s, v);
    }
  }

  lemma ServerMacLogged(s: State, v: Session)
    requires Shaped(s) && ServerMac(v) in s.log
    ensures ServerMatch(s, v)
  {
    assert SentBy(s, ServerMac(v), s.log[ServerMac(v)]);
    match s.log[ServerMac(v)]
    case ByServer(j) =>
      SrvKeyInjective(s.servers[j].v, v);
      assert ServerOk(s, j);
    case _ =>
  }

  lemma ServerMacNotLeaked(s: State, v: Session)
    requires Shaped(s)
    ensures ServerMac(v) !in s.leaked
  {
    if ServerMac(v) in s.leaked { LeakedMacShape(s, SrvKey(v), Th2(v)); }
  }

  /** A server MAC that verifies was made by a server run with the same view, unless both defences are lost. */
  lemma ServerMacProvesServer(s: State, i: nat, v: Session)
    requires Shaped(s) && i < |s.clients| && v.ss == s.clients[i].v.ss && v.dev == s.clients[i].v.dev
    requires Known(s, ServerMac(v)) && !HoldsBoth(s, v)
    ensures ServerMatch(s, v)
  {
    ServerMacNotLeaked(s, v);
    if ServerMac(v) in s.log { ServerMacLogged(s, v); } else { KnownSrvKey(s, i, v); }
  }

  // ---------------------------------------------------------------- client authentication

  /** Two views that share an HKDF output share the PSK. */
  lemma SharedKeySharedPsk(v: Session, w: Session, t: Term)
    requires t.Mac? && t.key == DataPrk(v) && (t == SrvKey(w) || t in DataKeys(w))
    ensures v.dev == w.dev
  {
    ServerKeyShapes(w);
    assert t.key.msg == DataPrk(v).msg;
  }

  lemma IkmNeedsPsk(s: State, v: Session)
    requires Known(s, DataPrk(v).msg)
    ensures Psk(v.dev) in s.leaked && Known(s, v.ss)
    ensures IsFs(v.suite) ==> Known(s, v.sse)
  {
    if IsFs(v.suite) { assert Known(s, Pair(v.sse, Psk(v.dev))); }
    assert Known(s, Psk(v.dev));
  }

  /** While the device's PSK is safe so are its data and confirmation keys. */
  lemma DataKeySecret(s: State, v: Session, name: Label)
    requires Shaped(s) && Psk(v.dev) !in s.leaked
    ensures !Known(s, KeyOf(DataPrk(v), name, DataTh(v)))
  {
    var t := KeyOf(DataPrk(v), name, DataTh(v));
    if Known(s, t) {
      KnownKey(s, Salt(v), DataPrk(v).msg, t.msg);
      if t !in s.leaked { IkmNeedsPsk(s, v); }
      else {
        LeakedMac(s, DataPrk(v), t.msg);
        match s.leaked[t]
        case FromServer(j) => SharedKeySharedPsk(v, s.servers[j].v, t);
        case FromClient(i) => SharedKeySharedPsk(v, s.clients[i].v, t);
      }
    }
  }

  lemma ClientMacNotLeaked(s: State, v: Session)
    requires Shaped(s)
    ensures ClientMac(v) !in s.leaked
  {
    if ClientMac(v) in s.leaked { LeakedMacShape(s, CliKey(v), ClientMac(v).msg); }
  }

  lemma ClientViewWellFormed(s: State, i: nat)
    requires ClientsOk(s) && i < |s.clients| && s.clients[i].accepted
    ensures WellFormed(s.clients[i].v) && s.clients[i].v.cn == ClientNonce(i)
  {
    assert ClientOk(s, i);
  }

  /** A client MAC that verifies was made by the client run with the same view, while its PSK is safe. */
  lemma ClientMacProvesClient(s: State, v: Session)
    requires Shaped(s) && WellFormed(v) && Known(s, ClientMac(v)) && Psk(v.dev) !in s.leaked
    ensures ClientMatch(s, v) && !s.clients[v.cn.run].exposed
  {
    ClientMacNotLeaked(s, v);
    DataKeySecret(s, v, CliConfirm);
    var t := ClientMac(v);
    assert SentBy(s, t, s.log[t]);
    match s.log[t]
    case ByFinished(i) =>
      ClientViewWellFormed(s, i);
      DataKeyInjective(s.clients[i].v, v, CliConfirm);
      assert ClientOk(s, i);
    case _ =>
  }

  // ---------------------------------------------------------------- records

  /** A record that opens was sealed by the client run with the same view, while the key is safe. */
  lemma RecordProvesClient(s: State, v: Session, n: nat, len: nat, plain: Term)
    requires Shaped(s) && WellFormed(v)
    requires Known(s, SealedWith(v, n, len, plain)) && !Known(s, C2sKey(v))
    ensures Delivered(s, v, (n, plain)) && s.clients[v.cn.run].sealed[n] == len
  {
    var t := SealedWith(v, n, len, plain);
    assert SentBy(s, t, s.log[t]);
    match s.log[t]
    case ByRecord(i, k) =>
      ClientViewWellFormed(s, i);
      DataKeyInjective(s.clients[i].v, v, C2s);
    case _ =>
  }
}
