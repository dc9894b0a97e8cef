/**
 * Agreement on bytes: when the client accepts a server's MAC, or the server what a
 * client sent as ClientFinished, the two ends agree on everything they have seen
 * and computed by then, or exhibit a collision between two hash queries named in
 * advance.
 */
module Agreement {
  import opened Bytes
  import opened Crypto
  import opened KeySchedule
  import opened Messages
  import opened Framing
  import opened Client
  import opened Server
  import opened Injectivity

  /** All an end holds once ct_eph is known: the messages so far and the secrets. */
  datatype End = End(
    h: ClientHello, sn: Bytes, sid: Bytes, ek: Bytes, mac: Bytes, ctEph: Bytes,
    ss: Bytes, sse: Bytes, psk: Bytes)

  predicate IsModeB(x: End) { Params(x.h.suite).Some? && Params(x.h.suite).value.fs }

  /** Field sizes as the suite prescribes them. */
  predicate Sized(x: End) {
    Transcript(x.h, x.sn, x.sid, x.ek) && |x.mac| == MAC_LEN && |x.psk| == PSK_LEN && |x.ss| == 32 &&
    if IsModeB(x) then |x.ctEph| == Params(x.h.suite).value.ct && |x.sse| == 32 else x.ctEph == x.sse == []
  }

  // ---------------------------------------------------------------- what an end computes

  function Pre2(x: End): Bytes { Preimage2(x.h, x.sn, x.sid, x.ek) }

  function Th2(c: Primitives, x: End): Bytes32 { c.sha256(Pre2(x)) }

  function Pre3(c: Primitives, x: End): Bytes { var th: Bytes := Th2(c, x); th + x.ctEph }

  function Th(c: Primitives, x: End): Bytes32 { if IsModeB(x) then c.sha256(Pre3(c, x)) else Th2(c, x) }

  function Salt(x: End): Bytes { x.h.nonce + x.sn }

  function Ikm(x: End): Bytes { if IsModeB(x) then x.ss + x.sse + x.psk else x.ss + x.psk }

  function Prk(c: Primitives, x: End): Bytes32 { c.hmac(Salt(x), Ikm(x)) }

  /** The stage-1 key of the server's confirmation. */
  function ConfirmKey(c: Primitives, x: End): Bytes { DeriveStage1(c, x.ss, x.psk, x.h.nonce, x.sn, Th2(c, x)) }

  /** The keys that confirm the client and protect data, as the end's mode derives them. */
  function DataKeys(c: Primitives, x: End): SessionKeys
    requires |x.psk| == PSK_LEN
  {
    if IsModeB(x) then DeriveStage2(c, x.ss, x.sse, x.psk, x.h.nonce, x.sn, Th(c, x))
    else DeriveKeys(c, x.ss, x.psk, x.h.nonce, x.sn, Th(c, x)).value
  }

  /** The payload of ClientFinished. */
  function FinishedBytes(c: Primitives, x: End): Bytes
    requires |x.psk| == PSK_LEN
  {
    x.ctEph + c.hmac(DataKeys(c, x).cliConfirm, Th(c, x) + x.mac)
  }

  lemma DataKeyShape(c: Primitives, x: End)
    requires |x.psk| == PSK_LEN
    ensures var k := DataKeys(c, x);
            k.cliConfirm == c.hmac(Prk(c, x), Info(LABEL_CLI_CONFIRM, Th(c, x))) &&
            k.c2s == c.hmac(Prk(c, x), Info(LABEL_C2S, Th(c, x))) &&
            k.s2c == c.hmac(Prk(c, x), Info(LABEL_S2C, Th(c, x)))
  {
    ExpandOneBlock(c, Prk(c, x), LABEL_CLI_CONFIRM + Th(c, x));
    ExpandOneBlock(c, Prk(c, x), LABEL_C2S + Th(c, x));
    ExpandOneBlock(c, Prk(c, x), LABEL_S2C + Th(c, x));
  }

  // ---------------------------------------------------------------- agreement

  /** Two queries of the two ends that would have to collide. */
  predicate Collide(c: Primitives, x: End, y: End)
    requires |x.psk| == PSK_LEN && |y.psk| == PSK_LEN
  {
    var i, j := Info(LABEL_CLI_CONFIRM, Th(c, x)), Info(LABEL_CLI_CONFIRM, Th(c, y));
    MacCollision(c, DataKeys(c, x).cliConfirm, Th(c, x) + x.mac, DataKeys(c, y).cliConfirm, Th(c, y) + y.mac) ||
    MacCollision(c, Prk(c, x), i, Prk(c, y), j) ||
    MacCollision(c, Salt(x), Ikm(x), Salt(y), Ikm(y)) ||
    HashCollision(c, Pre2(x), Pre2(y)) || (IsModeB(x) && HashCollision(c, Pre3(c, x), Pre3(c, y)))
  }

  /** The ephemeral ciphertext and the MAC can be told apart in ClientFinished, and its length gives the mode away. */
  lemma FinishedParts(c: Primitives, x: End, y: End)
    requires Sized(x) && Sized(y) && FinishedBytes(c, x) == FinishedBytes(c, y)
    ensures x.ctEph == y.ctEph && IsModeB(x) == IsModeB(y)
    ensures c.hmac(DataKeys(c, x).cliConfirm, Th(c, x) + x.mac) == c.hmac(DataKeys(c, y).cliConfirm, Th(c, y) + y.mac)
  {
    var f := FinishedBytes(c, x);
    assert f[..|f| - 32] == x.ctEph && f[..|f| - 32] == y.ctEph;
  }

  /** The same transcript hash comes from the same messages. */
  lemma SameMessages(c: Primitives, x: End, y: End)
    requires Sized(x) && Sized(y) && IsModeB(x) == IsModeB(y) && Th(c, x) == Th(c, y)
    requires !HashCollision(c, Pre2(x), Pre2(y)) && !(IsModeB(x) && HashCollision(c, Pre3(c, x), Pre3(c, y)))
    ensures x.h == y.h && x.sn == y.sn && x.sid == y.sid && x.ek == y.ek
  {
    if IsModeB(x) { Th3PreimageInjective(Th2(c, x), x.ctEph, Th2(c, y), y.ctEph); }
    Th2PreimageInjective(x.h, x.sn, x.sid, x.ek, y.h, y.sn, y.sid, y.ek);
  }

  /** The same pseudorandom key comes from the same secrets. */
  lemma SameSecrets(c: Primitives, x: End, y: End)
    requires Sized(x) && Sized(y) && IsModeB(x) == IsModeB(y) && Prk(c, x) == Prk(c, y)
    requires !MacCollision(c, Salt(x), Ikm(x), Salt(y), Ikm(y))
    ensures x.ss == y.ss && x.sse == y.sse && x.psk == y.psk
  {
    if IsModeB(x) { Ikm2Injective(x.ss, x.sse, x.psk, y.ss, y.sse, y.psk); }
    else { IkmInjective(x.ss, x.psk, y.ss, x.ss, y.psk); }
  }

  /** Equal ClientFinished payloads come from ends that agree in everything. */
  lemma EqualFinishedEqualEnds(c: Primitives, x: End, y: End)
    requires Sized(x) && Sized(y) && FinishedBytes(c, x) == FinishedBytes(c, y)
    ensures x == y || Collide(c, x, y)
  {
    if !Collide(c, x, y) {
      FinishedParts(c, x, y);
      ConfirmationInjective(Th(c, x), Th(c, x), x.mac, Th(c, y), y.mac);
      DataKeyShape(c, x);
      DataKeyShape(c, y);
      SameMessages(c, x, y);
      SameSecrets(c, x, y);
    }
  }

  // ---------------------------------------------------------------- the two ends of the code

  /** The client after a ServerHello: h and ss are what it opened with. */
  function ClientEnd(c: Primitives, s: Setup, h: ClientHello, ss: Bytes, o: Offer): End {
    var e := c.encaps(o.ek, s.coinsEph);
    var answered := Params(h.suite).Some? && Params(h.suite).value.fs && e.Encapsulated?;
    End(h, o.sn, o.sid, o.ek, o.mac, if answered then e.ct else [], ss, if answered then e.ss else [], s.psk)
  }

  /** The server after a ClientFinished payload. */
  function ServerEnd(c: Primitives, v: ServerSetup, a: Admission, mac: Bytes, payload: Bytes): End
    requires a.Admitted?
  {
    var ctEph := if Fs(a) && |payload| >= MAC_LEN then payload[..|payload| - MAC_LEN] else [];
    var sse := c.decaps(v.dkE, ctEph);
    End(a.h, v.sn, v.sid, EkFor(v, Fs(a)), mac, ctEph, a.ss, if Fs(a) && sse.Some? then sse.value else [], a.psk)
  }

  /** The pieces of a ServerHello of the right length, and a hello of this client. */
  predicate Offered(c: Primitives, s: Setup, h: ClientHello, ss: Bytes, o: Offer) {
    WellSized(h) && h.suite == s.suite && h.nonce == s.nonce && |s.psk| == PSK_LEN && |ss| == 32 &&
    Transcript(h, o.sn, o.sid, o.ek) && |o.mac| == MAC_LEN
  }

  /** What a client that answers has computed: the keys, and from them its answer. */
  lemma AnswerIsEnd(c: Primitives, s: Setup, h: ClientHello, ss: Bytes, o: Offer)
    requires KemLengths(c) && Offered(c, s, h, ss, o)
    requires Respond(c, s, Encode(h), ss, o, Params(h.suite).value.fs).Answer?
    ensures var x := ClientEnd(c, s, h, ss, o);
            Sized(x) && o.mac == c.hmac(ConfirmKey(c, x), Th2(c, x))
    ensures var x := ClientEnd(c, s, h, ss, o);
            Respond(c, s, Encode(h), ss, o, Params(h.suite).value.fs) ==
            Answer(FinishedBytes(c, x), o.sid, DataKeys(c, x).c2s)
  {
    var x := ClientEnd(c, s, h, ss, o);
    assert Th2(c, x) == Transcript2(c, Encode(h), o.sn, o.sid, o.ek);
    if IsModeB(x) { assert Th(c, x) == Transcript3(c, Th2(c, x), x.ctEph); }
  }

  /** A server with fresh values of the right sizes has admitted this hello and sent this MAC. */
  predicate Replied(c: Primitives, v: ServerSetup, a: Admission, mac: Bytes) {
    a.Admitted? && WellSized(a.h) && |a.psk| == PSK_LEN && MacOf(c, v, a, Encode(a.h)) == Some(mac) &&
    Transcript(a.h, v.sn, v.sid, EkFor(v, Fs(a)))
  }

  /** What a server that completes has computed: it was sent exactly its own view's ClientFinished. */
  lemma CompletionIsEnd(c: Primitives, v: ServerSetup, a: Admission, mac: Bytes, f: Frame)
    requires Replied(c, v, a, mac) && Conclude(c, v, a, Encode(a.h), mac, f).Some?
    ensures var y := ServerEnd(c, v, a, mac, f.payload);
            Sized(y) && mac == c.hmac(ConfirmKey(c, y), Th2(c, y))
    ensures var y := ServerEnd(c, v, a, mac, f.payload);
            f.payload == FinishedBytes(c, y) && Conclude(c, v, a, Encode(a.h), mac, f) == Some(DataKeys(c, y).c2s)
  {
    var y := ServerEnd(c, v, a, mac, f.payload);
    assert Th2(c, y) == Th2Of(c, v, Encode(a.h), Fs(a));
    if IsModeB(y) {
      var ct := Params(a.h.suite).value.ct;
      assert f.payload == f.payload[..ct] + f.payload[ct..];
      assert Th(c, y) == Transcript3(c, Th2(c, y), f.payload[..ct]);
    }
  }

  // ---------------------------------------------------------------- the client accepts

  /** Agreement up to and including ServerHello: messages, static shared secret and PSK. */
  predicate SameOpening(x: End, y: End) {
    x.h == y.h && x.sn == y.sn && x.sid == y.sid && x.ek == y.ek && x.ss == y.ss && x.psk == y.psk
  }

  /** Sizes of all that an end holds once ServerHello has been sent. */
  predicate Opened(x: End) { Transcript(x.h, x.sn, x.sid, x.ek) && |x.psk| == PSK_LEN && |x.ss| == 32 }

  function ConfirmPrk(c: Primitives, x: End): Bytes32 { c.hmac(Salt(x), x.ss + x.psk) }

  /** Two queries behind the server's confirmation that would have to collide. */
  predicate ConfirmCollide(c: Primitives, x: End, y: End) {
    var i, j := Info(LABEL_SRV_CONFIRM, Th2(c, x)), Info(LABEL_SRV_CONFIRM, Th2(c, y));
    MacCollision(c, ConfirmKey(c, x), Th2(c, x), ConfirmKey(c, y), Th2(c, y)) ||
    MacCollision(c, ConfirmPrk(c, x), i, ConfirmPrk(c, y), j) ||
    MacCollision(c, Salt(x), x.ss + x.psk, Salt(y), y.ss + y.psk) || HashCollision(c, Pre2(x), Pre2(y))
  }

  /** Equal server MACs come from ends that agree up to ServerHello. */
  lemma EqualMacEqualOpening(c: Primitives, x: End, y: End)
    requires Opened(x) && Opened(y)
    requires c.hmac(ConfirmKey(c, x), Th2(c, x)) == c.hmac(ConfirmKey(c, y), Th2(c, y))
    ensures SameOpening(x, y) || ConfirmCollide(c, x, y)
  {
    if !ConfirmCollide(c, x, y) {
      ExpandOneBlock(c, ConfirmPrk(c, x), LABEL_SRV_CONFIRM + Th2(c, x));
      ExpandOneBlock(c, ConfirmPrk(c, y), LABEL_SRV_CONFIRM + Th2(c, y));
      Th2PreimageInjective(x.h, x.sn, x.sid, x.ek, y.h, y.sn, y.sid, y.ek);
      IkmInjective(x.ss, x.psk, y.ss, x.ss, y.psk);
    }
  }

  /** The server once it has replied. */
  function Replier(v: ServerSetup, a: Admission, mac: Bytes): End
    requires a.Admitted?
  {
    End(a.h, v.sn, v.sid, EkFor(v, Fs(a)), mac, [], a.ss, [], a.psk)
  }

  lemma ReplyIsEnd(c: Primitives, v: ServerSetup, a: Admission, mac: Bytes)
    requires Replied(c, v, a, mac)
    ensures var y := Replier(v, a, mac); Opened(y) && mac == c.hmac(ConfirmKey(c, y), Th2(c, y))
  {
    assert Th2(c, Replier(v, a, mac)) == Th2Of(c, v, Encode(a.h), Fs(a));
  }

  /**
   * Client-side agreement: a client that answers a ServerHello carrying the MAC of
   * some server holds that server's hello, nonces, session id, ek_E, static shared
   * secret and PSK, whatever else was on the wire, or the two exhibit a collision.
   */
  lemma AnswerProvesAgreement(c: Primitives, s: Setup, h: ClientHello, ss: Bytes, o: Offer, v: ServerSetup,
                              a: Admission, mac: Bytes)
    requires KemLengths(c) && Offered(c, s, h, ss, o) && Replied(c, v, a, mac) && o.mac == mac
    requires Respond(c, s, Encode(h), ss, o, Params(h.suite).value.fs).Answer?
    ensures var x, y := ClientEnd(c, s, h, ss, o), Replier(v, a, mac); SameOpening(x, y) || ConfirmCollide(c, x, y)
  {
    AnswerIsEnd(c, s, h, ss, o);
    ReplyIsEnd(c, v, a, mac);
    EqualMacEqualOpening(c, ClientEnd(c, s, h, ss, o), Replier(v, a, mac));
  }

  // ---------------------------------------------------------------- the server accepts

  /**
   * Agreement: a server that completes on a client's answer holds that client's
   * hello, nonces, session id, ek_E, ct_eph, PSK and shared secrets, hence all its
   * keys, or the two ends exhibit a collision.
   */
  lemma CompletionProvesAgreement(c: Primitives, s: Setup, h: ClientHello, ss: Bytes, o: Offer, v: ServerSetup,
                                  a: Admission, mac: Bytes)
    requires KemLengths(c) && Offered(c, s, h, ss, o) && Replied(c, v, a, mac)
    requires var r := Respond(c, s, Encode(h), ss, o, Params(h.suite).value.fs);
             r.Answer? && Conclude(c, v, a, Encode(a.h), mac, Frame(FRAME_CLIENT_FINISHED, r.finished)).Some?
    ensures var r := Respond(c, s, Encode(h), ss, o, Params(h.suite).value.fs);
            var x, y := ClientEnd(c, s, h, ss, o), ServerEnd(c, v, a, mac, r.finished);
            |x.psk| == |y.psk| == PSK_LEN &&
            (Collide(c, x, y) ||
             (x == y && Conclude(c, v, a, Encode(a.h), mac, Frame(FRAME_CLIENT_FINISHED, r.finished)) == Some(r.c2s)))
  {
    var r := Respond(c, s, Encode(h), ss, o, Params(h.suite).value.fs);
    AnswerIsEnd(c, s, h, ss, o);
    CompletionIsEnd(c, v, a, mac, Frame(FRAME_CLIENT_FINISHED, r.finished));
    EqualFinishedEqualEnds(c, ClientEnd(c, s, h, ss, o), ServerEnd(c, v, a, mac, r.finished));
  }
}
