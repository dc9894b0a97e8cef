/**
 * HKDF and the two-stage key schedule, byte for byte.
 */
module KeySchedule {
  import opened Bytes
  import opened Crypto

  const PSK_LEN: nat := 32

  // ASCII of "PQC-IoT-1 hello", "... server confirm", "... client confirm", "... c2s", "... s2c"
  const LABEL_HELLO: Bytes := [80, 81, 67, 45, 73, 111, 84, 45, 49, 32, 104, 101, 108, 108, 111]
  const LABEL_SRV_CONFIRM: Bytes :=
    [80, 81, 67, 45, 73, 111, 84, 45, 49, 32, 115, 101, 114, 118, 101, 114, 32, 99, 111, 110, 102, 105, 114, 109]
  const LABEL_CLI_CONFIRM: Bytes :=
    [80, 81, 67, 45, 73, 111, 84, 45, 49, 32, 99, 108, 105, 101, 110, 116, 32, 99, 111, 110, 102, 105, 114, 109]
  const LABEL_C2S: Bytes := [80, 81, 67, 45, 73, 111, 84, 45, 49, 32, 99, 50, 115]
  const LABEL_S2C: Bytes := [80, 81, 67, 45, 73, 111, 84, 45, 49, 32, 115, 50, 99]

  // ---------------------------------------------------------------- HKDF

  function Extract(c: Primitives, salt: Bytes, ikm: Bytes): Bytes32 { c.hmac(salt, ikm) }

  /** T(i) of RFC 5869 section 2.3; T(0) is empty. */
  function Block(c: Primitives, prk: Bytes, info: Bytes, i: nat): Bytes
    requires i <= 255
  {
    if i == 0 then [] else c.hmac(prk, Block(c, prk, info, i - 1) + info + [i as byte])
  }

  /** T(1) || ... || T(n). */
  function Blocks(c: Primitives, prk: Bytes, info: Bytes, n: nat): (s: Bytes)
    requires n <= 255
    ensures |s| == 32 * n
  {
    if n == 0 then [] else Blocks(c, prk, info, n - 1) + Block(c, prk, info, n)
  }

  const MAX_EXPAND: nat := 255 * 32

  /** The output keying material of HKDF-Expand: the blocks cut to the wanted length. */
  function Expand(c: Primitives, prk: Bytes, info: Bytes, len: nat): (okm: Bytes)
    requires len <= MAX_EXPAND
    ensures |okm| == len
  {
    Blocks(c, prk, info, (len + 31) / 32)[..len]
  }

  /** hkdf_expand: the loop computes HKDF-Expand and fails exactly beyond 255 blocks. */
  method HkdfExpand(c: Primitives, prk: Bytes, info: Bytes, length: nat) returns (r: Option<Bytes>)
    ensures r.Some? <==> length <= MAX_EXPAND
    ensures r.Some? ==> r.value == Expand(c, prk, info, length)
  {
    var output: Bytes := [];
    var block: Bytes := [];
    var counter := 1;
    while |output| < length
      invariant 1 <= counter <= 256
      invariant output == Blocks(c, prk, info, counter - 1) && block == Block(c, prk, info, counter - 1)
      invariant counter == 1 || 32 * (counter - 2) < length
    {
      if counter > 255 { return None; } // bytes([counter]) raises
      block := c.hmac(prk, block + info + [counter]);
      output := output + block;
      counter := counter + 1;
    }
    assert (length + 31) / 32 == counter - 1;
    return Some(output[..length]);
  }

  lemma {:induction false} BlocksPrefix(c: Primitives, prk: Bytes, info: Bytes, m: nat, n: nat)
    requires m <= n <= 255
    ensures Blocks(c, prk, info, m) <= Blocks(c, prk, info, n)
  {
    if m < n { BlocksPrefix(c, prk, info, m, n - 1); }
  }

  /** A shorter output is a prefix of a longer one from the same key and info. */
  lemma ExpandPrefix(c: Primitives, prk: Bytes, info: Bytes, short: nat, long: nat)
    requires short <= long <= MAX_EXPAND
    ensures Expand(c, prk, info, short) <= Expand(c, prk, info, long)
  {
    BlocksPrefix(c, prk, info, (short + 31) / 32, (long + 31) / 32);
    var s, t := Blocks(c, prk, info, (short + 31) / 32), Blocks(c, prk, info, (long + 31) / 32);
    assert t[..long][..short] == t[..short];
    assert t[..short] == s[..short];
  }

  /** The 32-byte case, the only one the protocol uses, is one HMAC. */
  lemma ExpandOneBlock(c: Primitives, prk: Bytes, info: Bytes)
    ensures Expand(c, prk, info, 32) == c.hmac(prk, info + [1])
  {
    assert Block(c, prk, info, 1) == c.hmac(prk, Block(c, prk, info, 0) + info + [1]);
    assert [] + info + [1] == info + [1];
    assert Blocks(c, prk, info, 1) == Blocks(c, prk, info, 0) + Block(c, prk, info, 1);
  }

  // ---------------------------------------------------------------- keys

  datatype SessionKeys = SessionKeys(srvConfirm: Bytes, cliConfirm: Bytes, c2s: Bytes, s2c: Bytes)

  function Key(c: Primitives, prk: Bytes, name: Bytes, th: Bytes): Bytes { Expand(c, prk, name + th, 32) }

  function Prk1(c: Primitives, ss: Bytes, psk: Bytes, cn: Bytes, sn: Bytes): Bytes32 { Extract(c, cn + sn, ss + psk) }

  function Prk2(c: Primitives, ss: Bytes, sse: Bytes, psk: Bytes, cn: Bytes, sn: Bytes): Bytes32 {
    Extract(c, cn + sn, ss + sse + psk)
  }

  /** derive_keys: mode A; a PSK of the wrong length is an error. */
  function DeriveKeys(c: Primitives, ss: Bytes, psk: Bytes, cn: Bytes, sn: Bytes, th2: Bytes): Option<SessionKeys> {
    if |psk| != PSK_LEN then None
    else
      var prk := Prk1(c, ss, psk, cn, sn);
      Some(SessionKeys(Key(c, prk, LABEL_SRV_CONFIRM, th2), Key(c, prk, LABEL_CLI_CONFIRM, th2),
                       Key(c, prk, LABEL_C2S, th2), Key(c, prk, LABEL_S2C, th2)))
  }

  /** derive_stage1: mode B's server confirmation key. */
  function DeriveStage1(c: Primitives, ss: Bytes, psk: Bytes, cn: Bytes, sn: Bytes, th2: Bytes): Bytes {
    Key(c, Prk1(c, ss, psk, cn, sn), LABEL_SRV_CONFIRM, th2)
  }

  /** derive_stage2: mode B's data keys. */
  function DeriveStage2(c: Primitives, ss: Bytes, sse: Bytes, psk: Bytes, cn: Bytes, sn: Bytes,
                        th3: Bytes): SessionKeys {
    var prk := Prk2(c, ss, sse, psk, cn, sn);
    SessionKeys([], Key(c, prk, LABEL_CLI_CONFIRM, th3), Key(c, prk, LABEL_C2S, th3), Key(c, prk, LABEL_S2C, th3))
  }

  /**
   * The confirmation key of stage 1 is the server-confirm component of mode A on
   * the same inputs, and both are one HMAC of label, transcript hash and 0x01.
   * derive_keys checks the PSK length, derive_stage1 does not: that is the only
   * difference.
   */
  lemma Stage1IsServerConfirm(c: Primitives, ss: Bytes, psk: Bytes, cn: Bytes, sn: Bytes, th2: Bytes)
    ensures DeriveKeys(c, ss, psk, cn, sn, th2).Some? <==> |psk| == PSK_LEN
    ensures |psk| == PSK_LEN ==>
              DeriveKeys(c, ss, psk, cn, sn, th2).value.srvConfirm == DeriveStage1(c, ss, psk, cn, sn, th2)
    ensures DeriveStage1(c, ss, psk, cn, sn, th2) == c.hmac(c.hmac(cn + sn, ss + psk), LABEL_SRV_CONFIRM + th2 + [1])
  {
    ExpandOneBlock(c, Prk1(c, ss, psk, cn, sn), LABEL_SRV_CONFIRM + th2);
  }

  function Transcript2(c: Primitives, hello: Bytes, sn: Bytes, sid: Bytes, ek: Bytes): Bytes32 {
    c.sha256(hello + sn + sid + ek)
  }

  function Transcript3(c: Primitives, th2: Bytes, ctEph: Bytes): Bytes32 { c.sha256(th2 + ctEph) }

  function HelloMac(c: Primitives, psk: Bytes, body: Bytes): Bytes32 { c.hmac(psk, LABEL_HELLO + body) }

  // ---------------------------------------------------------------- written out

  /** The bytes of an ASCII text. */
  function Ascii(s: string): (r: Bytes)
    ensures |r| == |s|
  {
    seq(|s|, i requires 0 <= i < |s| => s[i] as int % 256)
  }

  lemma LabelTexts()
    ensures LABEL_HELLO == Ascii("PQC-IoT-1 hello")
    ensures LABEL_SRV_CONFIRM == Ascii("PQC-IoT-1 server confirm")
    ensures LABEL_CLI_CONFIRM == Ascii("PQC-IoT-1 client confirm")
    ensures LABEL_C2S == Ascii("PQC-IoT-1 c2s") && LABEL_S2C == Ascii("PQC-IoT-1 s2c")
  {
    ConfirmTexts();
    DataTexts();
  }

  lemma ConfirmTexts()
    ensures LABEL_SRV_CONFIRM == Ascii("PQC-IoT-1 server confirm")
    ensures LABEL_CLI_CONFIRM == Ascii("PQC-IoT-1 client confirm")
  {
  }

  lemma DataTexts()
    ensures LABEL_HELLO == Ascii("PQC-IoT-1 hello")
    ensures LABEL_C2S == Ascii("PQC-IoT-1 c2s") && LABEL_S2C == Ascii("PQC-IoT-1 s2c")
  {
  }

  /** HKDF of RFC 5869 to 32 bytes, as two HMAC calls. */
  function Hkdf32(c: Primitives, salt: Bytes, ikm: Bytes, text: string, th: Bytes): Bytes32 {
    c.hmac(c.hmac(salt, ikm), Ascii(text) + th + [1])
  }

  /** Every key of both modes, down to HMAC and the text of its label. */
  lemma KeysWrittenOut(c: Primitives, ss: Bytes, sse: Bytes, psk: Bytes, cn: Bytes, sn: Bytes, th: Bytes)
    ensures |psk| == PSK_LEN ==>
              var k := DeriveKeys(c, ss, psk, cn, sn, th).value;
              k.srvConfirm == Hkdf32(c, cn + sn, ss + psk, "PQC-IoT-1 server confirm", th) &&
              k.cliConfirm == Hkdf32(c, cn + sn, ss + psk, "PQC-IoT-1 client confirm", th) &&
              k.c2s == Hkdf32(c, cn + sn, ss + psk, "PQC-IoT-1 c2s", th) &&
              k.s2c == Hkdf32(c, cn + sn, ss + psk, "PQC-IoT-1 s2c", th)
    ensures DeriveStage1(c, ss, psk, cn, sn, th) == Hkdf32(c, cn + sn, ss + psk, "PQC-IoT-1 server confirm", th)
    ensures var k := DeriveStage2(c, ss, sse, psk, cn, sn, th);
            k.cliConfirm == Hkdf32(c, cn + sn, ss + sse + psk, "PQC-IoT-1 client confirm", th) &&
            k.c2s == Hkdf32(c, cn + sn, ss + sse + psk, "PQC-IoT-1 c2s", th) &&
            k.s2c == Hkdf32(c, cn + sn, ss + sse + psk, "PQC-IoT-1 s2c", th)
    ensures forall body :: HelloMac(c, psk, body) == c.hmac(psk, Ascii("PQC-IoT-1 hello") + body)
  {
    LabelTexts();
    FourKeys(c, Prk1(c, ss, psk, cn, sn), th);
    FourKeys(c, Prk2(c, ss, sse, psk, cn, sn), th);
  }

  lemma FourKeys(c: Primitives, prk: Bytes, th: Bytes)
    ensures Key(c, prk, LABEL_SRV_CONFIRM, th) == c.hmac(prk, LABEL_SRV_CONFIRM + th + [1])
    ensures Key(c, prk, LABEL_CLI_CONFIRM, th) == c.hmac(prk, LABEL_CLI_CONFIRM + th + [1])
    ensures Key(c, prk, LABEL_C2S, th) == c.hmac(prk, LABEL_C2S + th + [1])
    ensures Key(c, prk, LABEL_S2C, th) == c.hmac(prk, LABEL_S2C + th + [1])
  {
    ExpandOneBlock(c, prk, LABEL_SRV_CONFIRM + th);
    ExpandOneBlock(c, prk, LABEL_CLI_CONFIRM + th);
    ExpandOneBlock(c, prk, LABEL_C2S + th);
    ExpandOneBlock(c, prk, LABEL_S2C + th);
  }

  // ---------------------------------------------------------------- the C side

  /** ct_equal: no early exit, and true exactly on equal buffers. */
  method CtEqual(a: Bytes, b: Bytes) returns (equal: bool)
    requires |a| == |b|
    ensures equal <==> a == b
  {
    var diff: nat := 0;
    for i := 0 to |a|
      invariant diff == 0 <==> a[..i] == b[..i]
    {
      assert a[..i + 1] == a[..i] + [a[i]] && b[..i + 1] == b[..i] + [b[i]];
      XorZero(a[i], b[i]);
      OrZero(diff, Xor(a[i], b[i]));
      diff := Or(diff, Xor(a[i], b[i]));
    }
    assert a[..|a|] == a && b[..|b|] == b;
    equal := diff == 0;
  }

  /** Bitwise exclusive or, lowest bit last. */
  function Xor(x: nat, y: nat): nat {
    if x == 0 && y == 0 then 0 else 2 * Xor(x / 2, y / 2) + (x + y) % 2
  }

  /** Bitwise or. */
  function Or(x: nat, y: nat): nat {
    if x == 0 && y == 0 then 0 else 2 * Or(x / 2, y / 2) + (if x % 2 == 0 && y % 2 == 0 then 0 else 1)
  }

  lemma {:induction false} XorZero(x: nat, y: nat)
    ensures Xor(x, y) == 0 <==> x == y
  {
    if x != 0 || y != 0 { XorZero(x / 2, y / 2); }
  }

  lemma {:induction false} OrZero(x: nat, y: nat)
    ensures Or(x, y) == 0 <==> x == 0 && y == 0
  {
    if x != 0 || y != 0 { OrZero(x / 2, y / 2); }
  }

  /** derive_key: label and transcript hash packed into one 72-byte info buffer. */
  method DeriveKey(c: Primitives, prk: Bytes, name: Bytes, th: Bytes) returns (key: Bytes)
    requires |name| <= 40 && |th| == 32
    ensures key == Key(c, prk, name, th)
  {
    var info := new byte[72];
    CopyInto(info, 0, name);
    CopyInto(info, |name|, th);
    assert info[..|name| + 32] == name + th;
    key := Expand(c, prk, info[..|name| + 32], 32);
  }
}
