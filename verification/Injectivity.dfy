/**
 * Why byte strings can be read as terms: the suite byte fixes every field length,
 * so transcripts, HKDF inputs and MAC inputs decode in one way only.
 */
module Injectivity {
  import opened Bytes
  import opened Crypto
  import opened KeySchedule
  import opened Messages

  /** What TH2 hashes, for an accepted hello and the ServerHello its suite calls for. */
  predicate Transcript(h: ClientHello, sn: Bytes, sid: Bytes, ek: Bytes) {
    WellSized(h) && |sn| == NONCE_LEN && |sid| == SESSION_ID_LEN &&
    |ek| == (if Params(h.suite).value.fs then Params(h.suite).value.ek else 0)
  }

  function Preimage2(h: ClientHello, sn: Bytes, sid: Bytes, ek: Bytes): Bytes { Encode(h) + sn + sid + ek }

  lemma PreimageParts(h: ClientHello, sn: Bytes, sid: Bytes, ek: Bytes)
    requires Transcript(h, sn, sid, ek)
    ensures var s := Preimage2(h, sn, sid, ek); var n := ClientHelloLen(Params(h.suite).value);
            |s| == n + 40 + |ek| && s[1] == h.suite && s[..n] == Encode(h) && s[n..n + 32] == sn &&
            s[n + 32..n + 40] == sid && s[n + 40..] == ek
  {
    EncodedHead(h);
  }

  /** Across all four suites, equal TH2 preimages come from equal handshakes. */
  lemma Th2PreimageInjective(g: ClientHello, gn: Bytes, gid: Bytes, gek: Bytes, h: ClientHello, hn: Bytes, hid: Bytes,
                             hek: Bytes)
    requires Transcript(g, gn, gid, gek) && Transcript(h, hn, hid, hek)
    requires Preimage2(g, gn, gid, gek) == Preimage2(h, hn, hid, hek)
    ensures g == h && gn == hn && gid == hid && gek == hek
  {
    PreimageParts(g, gn, gid, gek);
    PreimageParts(h, hn, hid, hek);
    EncodeInjective(g, h);
  }

  /** Equal TH3 preimages agree in TH2 and in ct_eph. */
  lemma Th3PreimageInjective(th: Bytes32, ct: Bytes, th': Bytes32, ct': Bytes)
    requires th + ct == th' + ct'
    ensures th == th' && ct == ct'
  {
    assert (th + ct)[..32] == th && (th' + ct')[..32] == th';
    assert (th + ct)[32..] == ct && (th' + ct')[32..] == ct';
  }

  /** A TH2 preimage is never a TH3 preimage, whatever the two suites. */
  lemma Th2NeverTh3(h: ClientHello, sn: Bytes, sid: Bytes, ek: Bytes, th2: Bytes32, suite: byte, ctEph: Bytes)
    requires Transcript(h, sn, sid, ek) && Params(suite).Some? && |ctEph| == Params(suite).value.ct
    ensures Preimage2(h, sn, sid, ek) != th2 + ctEph
  {
    PreimageParts(h, sn, sid, ek);
  }

  /**
   * TH2 binds the handshake: if two accepted handshakes share TH2, they are the
   * same or their two preimages are a SHA-256 collision.
   */
  lemma Th2Binds(c: Primitives, g: ClientHello, gn: Bytes, gid: Bytes, gek: Bytes, h: ClientHello, hn: Bytes,
                 hid: Bytes, hek: Bytes)
    requires Transcript(g, gn, gid, gek) && Transcript(h, hn, hid, hek)
    requires Transcript2(c, Encode(g), gn, gid, gek) == Transcript2(c, Encode(h), hn, hid, hek)
    ensures (g == h && gn == hn && gid == hid && gek == hek) ||
            HashCollision(c, Preimage2(g, gn, gid, gek), Preimage2(h, hn, hid, hek))
  {
    if Preimage2(g, gn, gid, gek) == Preimage2(h, hn, hid, hek) {
      Th2PreimageInjective(g, gn, gid, gek, h, hn, hid, hek);
    }
  }

  predicate IsLabel(l: Bytes) { l == LABEL_SRV_CONFIRM || l == LABEL_CLI_CONFIRM || l == LABEL_C2S || l == LABEL_S2C }

  /** What HMAC sees in a 32-byte HKDF-Expand. */
  function Info(l: Bytes, th: Bytes32): Bytes { l + th + [1] }

  /** The info string decodes uniquely into label and transcript hash. */
  lemma InfoInjective(l: Bytes, th: Bytes32, l': Bytes, th': Bytes32)
    requires IsLabel(l) && IsLabel(l') && Info(l, th) == Info(l', th')
    ensures l == l' && th == th'
  {
    var s := Info(l, th);
    assert |l| == |s| - 33 && |l'| == |s| - 33;
    assert s[..|l|] == l && s[..|l|] == l';
    assert s[|l|..|l| + 32] == th && s[|l|..|l| + 32] == th';
  }

  /** The labels under which keys are expanded, in the order of SessionKeys. */
  const KEY_LABELS: seq<Bytes> := [LABEL_SRV_CONFIRM, LABEL_CLI_CONFIRM, LABEL_C2S, LABEL_S2C]

  lemma LabelsDiffer(i: nat, j: nat)
    requires i < j < |KEY_LABELS|
    ensures KEY_LABELS[i] != KEY_LABELS[j] && IsLabel(KEY_LABELS[i]) && IsLabel(KEY_LABELS[j])
  {
    assert |LABEL_SRV_CONFIRM| == |LABEL_CLI_CONFIRM| && LABEL_SRV_CONFIRM[10] != LABEL_CLI_CONFIRM[10];
    assert |LABEL_C2S| == |LABEL_S2C| != |LABEL_SRV_CONFIRM| && LABEL_C2S[10] != LABEL_S2C[10];
  }

  /** The hello MAC's input is never an HKDF info, whatever the body. */
  lemma HelloNeverInfo(body: Bytes, l: Bytes, th: Bytes32)
    requires IsLabel(l)
    ensures LABEL_HELLO + body != Info(l, th)
  {
    assert (LABEL_HELLO + body)[10] == LABEL_HELLO[10] && Info(l, th)[10] == l[10];
  }

  /** Equal keys under different labels are a collision of two HMAC queries, even with different secrets. */
  lemma KeySeparation(c: Primitives, prk: Bytes, l: Bytes, th: Bytes32, prk': Bytes, l': Bytes, th': Bytes32)
    requires IsLabel(l) && IsLabel(l') && l != l'
    ensures Key(c, prk, l, th) == Key(c, prk', l', th') ==> MacCollision(c, prk, Info(l, th), prk', Info(l', th'))
  {
    ExpandOneBlock(c, prk, l + th);
    ExpandOneBlock(c, prk', l' + th');
    if Info(l, th) == Info(l', th') { InfoInjective(l, th, l', th'); }
  }

  /** The four keys of a mode A session, and those of mode B with the first from stage 1. */
  function KeysA(c: Primitives, ss: Bytes, psk: Bytes, cn: Bytes, sn: Bytes, th2: Bytes): seq<Bytes>
    requires |psk| == PSK_LEN
  {
    var k := DeriveKeys(c, ss, psk, cn, sn, th2).value;
    [k.srvConfirm, k.cliConfirm, k.c2s, k.s2c]
  }

  function KeysB(c: Primitives, ss: Bytes, sse: Bytes, psk: Bytes, cn: Bytes, sn: Bytes, th2: Bytes,
                 th3: Bytes): seq<Bytes> {
    var k := DeriveStage2(c, ss, sse, psk, cn, sn, th3);
    [DeriveStage1(c, ss, psk, cn, sn, th2), k.cliConfirm, k.c2s, k.s2c]
  }

  /**
   * Key separation: no two keys of a session are equal, in either mode, unless the
   * two HMAC queries that made them collide, whose messages differ in their label.
   */
  lemma SessionKeysSeparate(c: Primitives, ss: Bytes, sse: Bytes, psk: Bytes, cn: Bytes, sn: Bytes, th2: Bytes32,
                            th3: Bytes32, i: nat, j: nat)
    requires |psk| == PSK_LEN && i < j < 4
    ensures KeysA(c, ss, psk, cn, sn, th2)[i] == KeysA(c, ss, psk, cn, sn, th2)[j] ==>
              MacCollision(c, Prk1(c, ss, psk, cn, sn), Info(KEY_LABELS[i], th2),
                           Prk1(c, ss, psk, cn, sn), Info(KEY_LABELS[j], th2))
    ensures KeysB(c, ss, sse, psk, cn, sn, th2, th3)[i] == KeysB(c, ss, sse, psk, cn, sn, th2, th3)[j] ==>
              MacCollision(c, if i == 0 then Prk1(c, ss, psk, cn, sn) else Prk2(c, ss, sse, psk, cn, sn),
                           Info(KEY_LABELS[i], if i == 0 then th2 else th3),
                           Prk2(c, ss, sse, psk, cn, sn), Info(KEY_LABELS[j], th3))
  {
    var p1, p2 := Prk1(c, ss, psk, cn, sn), Prk2(c, ss, sse, psk, cn, sn);
    LabelsDiffer(i, j);
    KeySeparation(c, p1, KEY_LABELS[i], th2, p1, KEY_LABELS[j], th2);
    if i == 0 { KeySeparation(c, p1, KEY_LABELS[i], th2, p2, KEY_LABELS[j], th3); }
    else { KeySeparation(c, p2, KEY_LABELS[i], th3, p2, KEY_LABELS[j], th3); }
  }

  /** The MAC of a hello is no key of any session, unless the two HMAC queries collide. */
  lemma HelloMacSeparate(c: Primitives, psk: Bytes, body: Bytes, prk: Bytes, l: Bytes, th: Bytes32)
    requires IsLabel(l)
    ensures HelloMac(c, psk, body) == Key(c, prk, l, th) ==>
              MacCollision(c, psk, LABEL_HELLO + body, prk, Info(l, th))
  {
    ExpandOneBlock(c, prk, l + th);
    HelloNeverInfo(body, l, th);
  }

  /** Stage-1 and stage-2 HKDF inputs never coincide, and each decodes uniquely. */
  lemma IkmInjective(ss: Bytes32, psk: Bytes32, ss': Bytes32, sse': Bytes32, psk': Bytes32)
    ensures ss + psk != ss' + sse' + psk'
    ensures ss + psk == ss' + psk' ==> ss == ss' && psk == psk'
  {
    assert |ss + psk| == 64 && |ss' + sse' + psk'| == 96;
    if ss + psk == ss' + psk' {
      assert (ss + psk)[..32] == ss && (ss' + psk')[..32] == ss';
      assert (ss + psk)[32..] == psk && (ss' + psk')[32..] == psk';
    }
  }

  lemma Ikm2Injective(ss: Bytes32, sse: Bytes32, psk: Bytes32, ss': Bytes32, sse': Bytes32, psk': Bytes32)
    requires ss + sse + psk == ss' + sse' + psk'
    ensures ss == ss' && sse == sse' && psk == psk'
  {
    var s := ss + sse + psk;
    assert s[..32] == ss && s[..32] == ss';
    assert s[32..64] == sse && s[32..64] == sse';
    assert s[64..] == psk && s[64..] == psk';
  }

  /** The client confirms a unique transcript and server MAC, never the string the server confirms. */
  lemma ConfirmationInjective(th2: Bytes, th: Bytes32, mac: Bytes32, th': Bytes32, mac': Bytes32)
    requires |th2| == 32
    ensures th2 != th + mac
    ensures th + mac == th' + mac' ==> th == th' && mac == mac'
  {
    if th + mac == th' + mac' { Th3PreimageInjective(th, mac, th', mac'); }
  }
}
