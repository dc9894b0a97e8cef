/**
 * The link between the two layers: every key, MAC and message the code computes
 * on bytes is the value of the term the symbolic protocol uses for it.
 */
module Meaning {
  import opened Bytes
  import opened Crypto
  import opened KeySchedule
  import opened Messages
  import opened Records
  import opened Framing
  import opened Client
  import S = Server
  import opened Terms
  import P = Protocol

  /** Values of the atoms: nonces, secrets, device ids; `public` maps a private key to its public key. */
  datatype Env = Env(c: Primitives, atom: Term -> Bytes, publicKey: Bytes -> Bytes)

  function LabelBytes(l: Label): Bytes {
    match l
    case Hello => LABEL_HELLO
    case SrvConfirm => LABEL_SRV_CONFIRM
    case CliConfirm => LABEL_CLI_CONFIRM
    case C2s => LABEL_C2S
    case S2c => LABEL_S2C
  }

  function Value(e: Env, t: Term): Bytes
    decreases t
  {
    match t
    case Empty => []
    case Byte(n) => [n % 256]
    case Seq(n) => U64(n)
    case Len(n) => U16(n)
    case GcmNonce(n) => Nonce(n)
    case Tag(l) => LabelBytes(l)
    case Pair(a, b) => Value(e, a) + Value(e, b)
    case Hash(m) => e.c.sha256(Value(e, m))
    case KeyId(m) => e.c.sha256(Value(e, m))[..KEY_ID_LEN]
    case Mac(k, m) => e.c.hmac(Value(e, k), Value(e, m))
    case Ek(sk) => e.publicKey(Value(e, sk))
    case Encap(ek, r) =>
      var r := e.c.encaps(Value(e, ek), Value(e, r));
      if r.Encapsulated? then r.ct else []
    case Shared(ek, r) =>
      var r := e.c.encaps(Value(e, ek), Value(e, r));
      if r.Encapsulated? then r.ss else []
    case Rejected(sk, ct) =>
      var r := e.c.decaps(Value(e, sk), Value(e, ct));
      if r.Some? then r.value else []
    case Seal(k, n, aad, p) => e.c.seal(Value(e, k), Value(e, n), Value(e, aad), Value(e, p))
    case _ => e.atom(t)
  }

  lemma Cat2(e: Env, a: Term, b: Term)
    ensures Value(e, Pair(a, b)) == Value(e, a) + Value(e, b)
  {
  }

  lemma Cat3(e: Env, a: Term, b: Term, d: Term)
    ensures Value(e, Pair(a, Pair(b, d))) == Value(e, a) + Value(e, b) + Value(e, d)
  {
    Cat2(e, b, d);
    Cat2(e, a, Pair(b, d));
    Associative(Value(e, a), Value(e, b), Value(e, d));
  }

  lemma Cat4(e: Env, a: Term, b: Term, d: Term, f: Term)
    ensures Value(e, Pair(a, Pair(b, Pair(d, f)))) == Value(e, a) + Value(e, b) + Value(e, d) + Value(e, f)
  {
    Cat2(e, a, Pair(b, Pair(d, f)));
    Cat3(e, b, d, f);
    Associative(Value(e, a), Value(e, b) + Value(e, d), Value(e, f));
    Associative(Value(e, a), Value(e, b), Value(e, d));
  }

  lemma Associative(x: Bytes, y: Bytes, z: Bytes)
    ensures x + (y + z) == x + y + z
  {
  }

  // ---------------------------------------------------------------- key schedule

  lemma HelloMeaning(e: Env, v: P.Session)
    requires v.suite < 256
    ensures Value(e, P.ClientHello(v)) ==
            Build(e.c, v.suite, e.atom(Dev(v.dev)), Value(e, KeyId(Ek(StaticSk))), Value(e, v.cn), Value(e, v.ct),
                  e.atom(Psk(v.dev)))
  {
    BodyMeaning(e, v);
    Cat2(e, Tag(Label.Hello), P.HelloBody(v));
    Cat2(e, P.HelloBody(v), P.HelloMac(v));
  }

  lemma BodyMeaning(e: Env, v: P.Session)
    requires v.suite < 256
    ensures Value(e, P.HelloBody(v)) ==
            Body(v.suite, e.atom(Dev(v.dev)), Value(e, KeyId(Ek(StaticSk))), Value(e, v.cn), Value(e, v.ct))
  {
    var kid := KeyId(Ek(StaticSk));
    var d := Pair(Dev(v.dev), Pair(kid, Pair(v.cn, v.ct)));
    Cat4(e, Dev(v.dev), kid, v.cn, v.ct);
    Cat3(e, Byte(P.VERSION), Byte(v.suite), d);
    Heading(v.suite, e.atom(Dev(v.dev)), Value(e, kid), Value(e, v.cn), Value(e, v.ct));
  }

  lemma Heading(suite: byte, dev: Bytes, kid: Bytes, cn: Bytes, ct: Bytes)
    ensures [PROTOCOL_VERSION] + [suite] + (dev + kid + cn + ct) == Body(suite, dev, kid, cn, ct)
  {
  }

  lemma Th2Meaning(e: Env, v: P.Session)
    ensures Value(e, P.Th2(v)) ==
            Transcript2(e.c, Value(e, P.ClientHello(v)), Value(e, v.sn), Value(e, v.sid), Value(e, v.ek))
  {
    Cat4(e, P.ClientHello(v), v.sn, v.sid, v.ek);
  }

  lemma Th3Meaning(e: Env, v: P.Session)
    ensures Value(e, P.Th3(v)) == Transcript3(e.c, Value(e, P.Th2(v)), Value(e, v.ctEph))
  {
    Cat2(e, P.Th2(v), v.ctEph);
  }

  /** One HKDF-Expand call is one `KeyOf` term. */
  lemma KeyMeaning(e: Env, prk: Term, l: Label, th: Term)
    ensures Value(e, P.KeyOf(prk, l, th)) == Key(e.c, Value(e, prk), LabelBytes(l), Value(e, th))
  {
    ExpandOneBlock(e.c, Value(e, prk), LabelBytes(l) + Value(e, th));
    Cat3(e, Tag(l), th, Byte(1));
  }

  lemma Prk1Meaning(e: Env, v: P.Session)
    ensures Value(e, P.Prk1(v)) == Prk1(e.c, Value(e, v.ss), e.atom(Psk(v.dev)), Value(e, v.cn), Value(e, v.sn))
  {
    Cat2(e, v.ss, Psk(v.dev));
    Cat2(e, v.cn, v.sn);
  }

  lemma Prk2Meaning(e: Env, v: P.Session)
    ensures Value(e, P.Prk2(v)) ==
            Prk2(e.c, Value(e, v.ss), Value(e, v.sse), e.atom(Psk(v.dev)), Value(e, v.cn), Value(e, v.sn))
  {
    Cat3(e, v.ss, v.sse, Psk(v.dev));
    Cat2(e, v.cn, v.sn);
  }

  /** derive_stage1 and derive_keys compute the server confirmation key term; the server MAC is its MAC. */
  lemma ServerMacMeaning(e: Env, v: P.Session)
    requires |e.atom(Psk(v.dev))| == PSK_LEN
    ensures var th2 := Value(e, P.Th2(v));
            var k := ServerConfirm(e.c, P.IsFs(v.suite), Value(e, v.ss), e.atom(Psk(v.dev)),
                                   Value(e, v.cn), Value(e, v.sn), th2);
            k == Some(Value(e, P.SrvKey(v))) && Value(e, P.ServerMac(v)) == e.c.hmac(k.value, th2)
  {
    Prk1Meaning(e, v);
    KeyMeaning(e, P.Prk1(v), SrvConfirm, P.Th2(v));
  }

  /** The data keys of either mode are the values of the data key terms. */
  lemma DataKeysMeaning(e: Env, v: P.Session)
    requires |e.atom(Psk(v.dev))| == PSK_LEN
    ensures var psk, cn, sn := e.atom(Psk(v.dev)), Value(e, v.cn), Value(e, v.sn);
            var keys := if P.IsFs(v.suite)
                        then DeriveStage2(e.c, Value(e, v.ss), Value(e, v.sse), psk, cn, sn, Value(e, P.Th3(v)))
                        else DeriveKeys(e.c, Value(e, v.ss), psk, cn, sn, Value(e, P.Th2(v))).value;
            keys.cliConfirm == Value(e, P.CliKey(v)) && keys.c2s == Value(e, P.C2sKey(v)) &&
            keys.s2c == Value(e, P.S2cKey(v))
  {
    Prk1Meaning(e, v);
    Prk2Meaning(e, v);
    KeyMeaning(e, P.DataPrk(v), CliConfirm, P.DataTh(v));
    KeyMeaning(e, P.DataPrk(v), C2s, P.DataTh(v));
    KeyMeaning(e, P.DataPrk(v), S2c, P.DataTh(v));
  }

  lemma ClientMacMeaning(e: Env, v: P.Session)
    ensures Value(e, P.ClientMac(v)) ==
            e.c.hmac(Value(e, P.CliKey(v)), Value(e, P.DataTh(v)) + Value(e, P.ServerMac(v)))
  {
    Cat2(e, P.DataTh(v), P.ServerMac(v));
  }

  /** A Data frame's payload is the value of the record term. */
  lemma RecordMeaning(e: Env, v: P.Session, n: nat, plain: Term)
    ensures Value(e, P.Record(v, n, |Value(e, plain)|, plain)) ==
            SealRecord(e.c, Value(e, P.C2sKey(v)), Value(e, v.sid), n, Value(e, plain))
  {
    SealedValue(e, P.C2sKey(v), v, n, |Value(e, plain)|, plain);
    Cat3(e, Seq(n), Len(|Value(e, plain)|), P.SealedWith(v, n, |Value(e, plain)|, plain));
  }

  // ---------------------------------------------------------------- the client run

  /** The code's inputs are the values of a symbolic client run's atoms. */
  predicate Represents(e: Env, s: Setup, i: nat, v: P.Session) {
    v.suite == s.suite as int && Params(s.suite).Some? && s.deviceId == e.atom(Dev(v.dev)) &&
    s.psk == e.atom(Psk(v.dev)) &&
    |s.psk| == PSK_LEN && s.ek == Value(e, Ek(StaticSk)) && MlKemKey(s.ek) && s.nonce == Value(e, v.cn) &&
    s.coins == Value(e, Coins(i, false)) && s.coinsEph == Value(e, Coins(i, true)) &&
    v.ct == Encap(Ek(StaticSk), Coins(i, false)) && v.ss == Shared(Ek(StaticSk), Coins(i, false))
  }

  /** The ClientHello the code sends is the value of the run's ClientHello term. */
  lemma OpenMeaning(e: Env, s: Setup, i: nat, v: P.Session)
    requires Represents(e, s, i, v) && Open(e.c, s).Hello?
    ensures Open(e.c, s) == Opening.Hello(Value(e, P.ClientHello(v)), Value(e, v.ss))
  {
    HelloMeaning(e, v);
  }

  /** The offer in a ServerHello represents the terms the run would accept. */
  predicate Offers(e: Env, o: Offer, v: P.Session) {
    o.sn == Value(e, v.sn) && o.sid == Value(e, v.sid) && o.ek == Value(e, v.ek)
  }

  /**
   * The client's reaction is the symbolic one: it answers exactly if the MAC is
   * the value of the ServerMac term (and, in mode B, ek_E is encapsulated to), and
   * then with the values of the Finished and c2s key terms.
   */
  lemma RespondMeaning(e: Env, s: Setup, i: nat, v: P.Session, o: Offer)
    requires Represents(e, s, i, v) && Open(e.c, s).Hello? && Offers(e, o, v)
    requires v.ctEph == v.sse == Empty && (!P.IsFs(v.suite) ==> v.ek == Empty)
    ensures var fs := P.IsFs(v.suite);
            var r := Respond(e.c, s, Value(e, P.ClientHello(v)), Value(e, v.ss), o, fs);
            var w := P.Answered(i, v);
            (r.Answer? <==> o.mac == Value(e, P.ServerMac(v)) &&
                            (fs ==> |o.ek| == |s.ek| && e.c.encaps(o.ek, s.coinsEph).Encapsulated?)) &&
            (r.Answer? ==>
               r.finished == Value(e, P.Finished(w)) && r.sid == Value(e, w.sid) && r.c2s == Value(e, P.C2sKey(w)))
  {
    Th2Meaning(e, v);
    ServerMacMeaning(e, v);
    if o.mac == Value(e, P.ServerMac(v)) {
      if P.IsFs(v.suite) { AnswerFsMeaning(e, s, i, v, o); } else { AnswerStaticMeaning(e, s, v, o); }
    }
  }

  /**
   * Encapsulation takes exactly the keys that pass the check of FIPS 203 section 7.2, here those
   * that are public keys.
   */
  ghost predicate ChecksKeys(e: Env, ek: Term) {
    forall r :: e.c.encaps(Value(e, ek), r).Encapsulated? <==> Canonical(ek)
  }

  /**
   * The client answers exactly when the state machine's client accepts, for an
   * ephemeral key of the suite's length and a MAC that collides with none it expects.
   */
  lemma AcceptMeaning(e: Env, s: Setup, i: nat, v: P.Session, o: Offer, mac: Term)
    requires Represents(e, s, i, v) && Open(e.c, s).Hello? && Offers(e, o, v) && o.mac == Value(e, mac)
    requires v.ctEph == v.sse == Empty && (!P.IsFs(v.suite) ==> v.ek == Empty)
    requires P.IsFs(v.suite) ==> |o.ek| == |s.ek| && ChecksKeys(e, v.ek)
    requires Value(e, mac) == Value(e, P.ServerMac(v)) ==> mac == P.ServerMac(v)
    ensures Respond(e.c, s, Value(e, P.ClientHello(v)), Value(e, v.ss), o, P.IsFs(v.suite)).Answer? <==>
            P.Acceptable(v, mac)
  {
    RespondMeaning(e, s, i, v, o);
  }

  /** The record loop accepts exactly what the state machine's server opens, and delivers the value of its plaintext. */
  lemma ReadMeaning(e: Env, v: P.Session, last: int, n: nat, len: nat, body: Term)
    requires AeadOpens(e.c) && n < TWO64 && len < 0x1_0000 && |Value(e, body)| == len + TAG_LEN
    requires e.c.open(Value(e, P.C2sKey(v)), Nonce(n), Aad(Value(e, v.sid), n, len), Value(e, body)).Some? ==>
             P.Opens(v, n, len, body)
    ensures OpenRecord(e.c, Value(e, P.C2sKey(v)), Value(e, v.sid), last,
                       Value(e, Pair(Seq(n), Pair(Len(len), body)))) ==
            (if n > last && P.Opens(v, n, len, body) then Accepted(n, Value(e, body.plain)) else Opened.Rejected)
  {
    Cat3(e, Seq(n), Len(len), body);
    PackedRecordOpens(e.c, Value(e, P.C2sKey(v)), Value(e, v.sid), n, len, Value(e, body), last);
    if P.Opens(v, n, len, body) { SealedValue(e, P.C2sKey(v), v, n, len, body.plain); }
  }

  lemma SealedValue(e: Env, key: Term, v: P.Session, n: nat, len: nat, plain: Term)
    ensures Value(e, Seal(key, GcmNonce(n), P.Aad(v, n, len), plain)) ==
            e.c.seal(Value(e, key), Nonce(n), Aad(Value(e, v.sid), n, len), Value(e, plain))
  {
    Cat3(e, v.sid, Seq(n), Len(len));
  }

  /** Mode A: the answer is ClientFinished. */
  lemma AnswerStaticMeaning(e: Env, s: Setup, v: P.Session, o: Offer)
    requires s.psk == e.atom(Psk(v.dev)) && |s.psk| == PSK_LEN && s.nonce == Value(e, v.cn) && o.sn == Value(e, v.sn)
    requires o.mac == Value(e, P.ServerMac(v)) && !P.IsFs(v.suite) && v.ctEph == Empty
    ensures var th2 := Value(e, P.Th2(v));
            var a := Finish(e.c, DeriveKeys(e.c, Value(e, v.ss), s.psk, s.nonce, o.sn, th2).value, th2, [], o);
            a.finished == Value(e, P.Finished(v)) && a.c2s == Value(e, P.C2sKey(v)) && a.sid == o.sid
  {
    DataKeysMeaning(e, v);
    ClientMacMeaning(e, v);
    Cat2(e, v.ctEph, P.ClientMac(v));
  }

  /** Mode B: the answer is ClientKeyExchange, if ek_E is encapsulated to. */
  lemma AnswerFsMeaning(e: Env, s: Setup, i: nat, v: P.Session, o: Offer)
    requires s.psk == e.atom(Psk(v.dev)) && |s.psk| == PSK_LEN && s.nonce == Value(e, v.cn) && Offers(e, o, v)
    requires s.coinsEph == Value(e, Coins(i, true))
    requires o.mac == Value(e, P.ServerMac(v)) && P.IsFs(v.suite) && |Value(e, P.Th2(v))| == 32
    ensures var w := P.Answered(i, v);
            var r := AnswerFs(e.c, s, Value(e, v.ss), o, Value(e, P.Th2(v)));
            (r.Answer? <==> |o.ek| == |s.ek| && e.c.encaps(o.ek, s.coinsEph).Encapsulated?) &&
            (r.Answer? ==> r.finished == Value(e, P.Finished(w)) && r.sid == o.sid && r.c2s == Value(e, P.C2sKey(w)))
  {
    var w := P.Answered(i, v);
    AnsweredMeaning(e, i, v);
    Th3Meaning(e, w);
    DataKeysMeaning(e, w);
    ClientMacMeaning(e, w);
    Cat2(e, w.ctEph, P.ClientMac(w));
  }

  /** Answering adds the ephemeral ciphertext and secret and changes neither TH2 nor the server MAC. */
  lemma AnsweredMeaning(e: Env, i: nat, v: P.Session)
    requires P.IsFs(v.suite)
    ensures var w := P.Answered(i, v);
            var r := e.c.encaps(Value(e, v.ek), Value(e, Coins(i, true)));
            P.Th2(w) == P.Th2(v) && P.ServerMac(w) == P.ServerMac(v) && P.IsFs(w.suite) && w.ss == v.ss &&
            w.cn == v.cn && w.sn == v.sn &&
            w.dev == v.dev && (r.Encapsulated? ==> Value(e, w.ctEph) == r.ct && Value(e, w.sse) == r.ss)
  {
  }

  // ---------------------------------------------------------------- the server run

  /** The server's long-term and fresh values, and what it admitted, are values of a symbolic server run's terms. */
  predicate Admits(e: Env, s: S.ServerSetup, a: S.Admission, v: P.Session) {
    a.Admitted? && Params(a.h.suite).Some? && v.suite == a.h.suite as int && a.psk == e.atom(Psk(v.dev)) &&
    |a.psk| == PSK_LEN &&
    a.ss == Value(e, v.ss) && a.h.nonce == Value(e, v.cn) && s.sn == Value(e, v.sn) && s.sid == Value(e, v.sid) &&
    (if P.IsFs(v.suite) then s.ekE == Value(e, v.ek) else v.ek == Empty)
  }

  /** Decapsulation computes the value of the Decap term, the right ciphertext or not. */
  lemma DecapMeaning(e: Env, sk: Term, ct: Term)
    requires KeyPair(e.c, Value(e, sk), Value(e, Ek(sk)))
    requires e.c.decaps(Value(e, sk), Value(e, ct)).Some?
    ensures Value(e, Decap(sk, ct)) == e.c.decaps(Value(e, sk), Value(e, ct)).value
  {
    if ct.Encap? && ct.ek == Ek(sk) {
      var r := e.c.encaps(Value(e, ct.ek), Value(e, ct.coins));
      assert r.Encapsulated? && e.c.decaps(Value(e, sk), r.ct) == Some(r.ss);
    }
  }

  /** The server's key, key id and device table are the values of the long-term terms. */
  predicate Serves(e: Env, s: S.ServerSetup, dev: nat) {
    s.dk == Value(e, StaticSk) && s.keyId == Value(e, KeyId(Ek(StaticSk))) &&
    (e.atom(Dev(dev)) in s.table ==> s.table[e.atom(Dev(dev))] == e.atom(Psk(dev)))
  }

  /** A parsed hello carries the values of this view's suite, device, nonce and ciphertext. */
  predicate Carries(e: Env, h: ClientHello, v: P.Session) {
    WellSized(h) && v.suite == h.suite as int && h.deviceId == e.atom(Dev(v.dev)) && h.nonce == Value(e, v.cn) &&
    h.kemCt == Value(e, v.ct)
  }

  /**
   * The server admits exactly the registered hellos that are the value of the
   * ClientHello term of the view they carry (and whose ciphertext OpenSSL takes),
   * and starts its run with the values of that view's PSK and Decap terms.
   */
  lemma AdmitMeaning(e: Env, s: S.ServerSetup, h: ClientHello, v: P.Session)
    requires Serves(e, s, v.dev) && Carries(e, h, v) && KeyPair(e.c, Value(e, StaticSk), Value(e, Ek(StaticSk)))
    ensures var a := S.Admit(e.c, s, Frame(FRAME_CLIENT_HELLO, Encode(h)));
            (a.Admitted? <==>
               h.deviceId in s.table && Encode(h) == Value(e, P.ClientHello(v)) && e.c.decaps(s.dk, h.kemCt).Some?) &&
            (a.Admitted? ==> a.h == h && a.psk == e.atom(Psk(v.dev)) && a.ss == Value(e, Decap(StaticSk, v.ct)))
  {
    DecodeEncode(h);
    CarriedMeaning(e, h, v);
    if e.c.decaps(s.dk, h.kemCt).Some? { DecapMeaning(e, StaticSk, v.ct); }
  }

  /** A hello that carries the view is its term's value exactly if key id and MAC are. */
  lemma CarriedMeaning(e: Env, h: ClientHello, v: P.Session)
    requires Carries(e, h, v)
    ensures Encode(h) == Value(e, P.ClientHello(v)) <==>
            h.keyId == Value(e, KeyId(Ek(StaticSk))) && h.pskMac == HelloMac(e.c, e.atom(Psk(v.dev)), SignedPart(h))
  {
    var kid := Value(e, KeyId(Ek(StaticSk)));
    var body := Body(h.suite, h.deviceId, kid, h.nonce, h.kemCt);
    var mine := h.(keyId := kid, pskMac := HelloMac(e.c, e.atom(Psk(v.dev)), body));
    HelloMeaning(e, v);
    assert Encode(mine) == Value(e, P.ClientHello(v));
    if Encode(h) == Encode(mine) { EncodeInjective(h, mine); }
  }

  /** The ServerHello the code sends is the value of the run's ServerHello term. */
  lemma ReplyMeaning(e: Env, s: S.ServerSetup, a: S.Admission, v: P.Session)
    requires Admits(e, s, a, v)
    ensures S.MacOf(e.c, s, a, Value(e, P.ClientHello(v))) == Some(Value(e, P.ServerMac(v)))
    ensures S.ServerHello(s, S.Fs(a), Value(e, P.ServerMac(v))).payload == Value(e, P.ServerHello(v))
  {
    Th2Meaning(e, v);
    ServerMacMeaning(e, v);
    Cat4(e, v.sn, v.sid, v.ek, P.ServerMac(v));
  }

  /**
   * The server completes exactly if the MAC it was sent is the value of the
   * ClientMac term of its own view, and then holds the value of the c2s key term.
   */
  lemma ConcludeMeaning(e: Env, s: S.ServerSetup, a: S.Admission, w: P.Session, ctEph: Bytes, clientMac: Bytes)
    requires Admits(e, s, a, w) && ctEph == Value(e, w.ctEph) && |clientMac| == MAC_LEN
    requires if P.IsFs(w.suite)
             then |ctEph| == Params(a.h.suite).value.ct && S.DecapsTo(e.c, s, ctEph, Value(e, w.sse))
             else w.ctEph == Empty
    ensures S.Conclude(e.c, s, a, Value(e, P.ClientHello(w)), Value(e, P.ServerMac(w)),
                       Frame(FRAME_CLIENT_FINISHED, ctEph + clientMac)) ==
            (if clientMac == Value(e, P.ClientMac(w)) then Some(Value(e, P.C2sKey(w))) else None)
  {
    Th2Meaning(e, w);
    Th3Meaning(e, w);
    DataKeysMeaning(e, w);
    ClientMacMeaning(e, w);
    assert (ctEph + clientMac)[..|ctEph|] == ctEph && (ctEph + clientMac)[|ctEph|..] == clientMac;
  }

  /**
   * The same against the server run of the state machine: decapsulating any
   * ct_eph with dk_E, the server completes exactly when ServerFinish does.
   */
  lemma ServerFinishMeaning(e: Env, s: S.ServerSetup, a: S.Admission, j: nat, v: P.Session, ctEph: Term,
                            clientMac: Bytes)
    requires Admits(e, s, a, v) && |clientMac| == MAC_LEN
    requires if P.IsFs(v.suite)
             then v.ek == Ek(EphSk(j)) && s.dkE == Value(e, EphSk(j)) && KeyPair(e.c, s.dkE, Value(e, v.ek)) &&
                  |Value(e, ctEph)| == Params(a.h.suite).value.ct && e.c.decaps(s.dkE, Value(e, ctEph)).Some?
             else v.ctEph == ctEph == Empty
    ensures var w := P.Concluded(j, v, ctEph);
            S.Conclude(e.c, s, a, Value(e, P.ClientHello(v)), Value(e, P.ServerMac(v)),
                       Frame(FRAME_CLIENT_FINISHED, Value(e, ctEph) + clientMac)) ==
            (if clientMac == Value(e, P.ClientMac(w)) then Some(Value(e, P.C2sKey(w))) else None)
  {
    var w := P.Concluded(j, v, ctEph);
    if P.IsFs(v.suite) { DecapMeaning(e, EphSk(j), ctEph); }
    ConcludedSame(j, v, ctEph);
    ConcludeMeaning(e, s, a, w, Value(e, ctEph), clientMac);
  }

  lemma ConcludedSame(j: nat, v: P.Session, ctEph: Term)
    ensures var w := P.Concluded(j, v, ctEph); P.ClientHello(w) == P.ClientHello(v) && P.ServerMac(w) == P.ServerMac(v)
  {
  }
}
