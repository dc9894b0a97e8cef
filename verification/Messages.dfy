/**
 * Suites, ClientHello and the layout of the handshake messages.
 */
module Messages {
  import opened Bytes
  import opened Crypto
  import opened KeySchedule

  const PROTOCOL_VERSION: byte := 0x01
  const NONCE_LEN: nat := 32
  const SESSION_ID_LEN: nat := 8
  const DEVICE_ID_LEN: nat := 8
  const KEY_ID_LEN: nat := 4
  const MAC_LEN: nat := 32

  const FRAME_CLIENT_HELLO: byte := 0x01
  const FRAME_SERVER_HELLO: byte := 0x02
  const FRAME_CLIENT_FINISHED: byte := 0x03
  const FRAME_DATA: byte := 0x10
  const FRAME_CLOSE: byte := 0x7F

  datatype SuiteParams = SuiteParams(ct: nat, ek: nat, fs: bool)

  /** SUITE_PARAMS. */
  function Params(suite: byte): (r: Option<SuiteParams>)
    ensures r.Some? ==> r.value.ct == CtLen(r.value.ek) && (r.value.ek == 1184 || r.value.ek == 800)
  {
    if suite == 0x01 then Some(SuiteParams(1088, 1184, false))
    else if suite == 0x02 then Some(SuiteParams(768, 800, false))
    else if suite == 0x11 then Some(SuiteParams(1088, 1184, true))
    else if suite == 0x12 then Some(SuiteParams(768, 800, true))
    else None
  }

  const SERVER_HELLO_LEN: nat := NONCE_LEN + SESSION_ID_LEN + MAC_LEN

  function ServerHelloLen(p: SuiteParams): nat { SERVER_HELLO_LEN + (if p.fs then p.ek else 0) }

  const HELLO_HEAD: nat := 2 + DEVICE_ID_LEN + KEY_ID_LEN + NONCE_LEN

  function ClientHelloLen(p: SuiteParams): nat { HELLO_HEAD + p.ct + MAC_LEN }

  datatype ClientHello = ClientHello(
    suite: byte, deviceId: Bytes, keyId: Bytes, nonce: Bytes, kemCt: Bytes, pskMac: Bytes)

  function Body(suite: byte, deviceId: Bytes, keyId: Bytes, nonce: Bytes, kemCt: Bytes): Bytes {
    [PROTOCOL_VERSION, suite] + deviceId + keyId + nonce + kemCt
  }

  function SignedPart(h: ClientHello): Bytes { Body(h.suite, h.deviceId, h.keyId, h.nonce, h.kemCt) }

  function Encode(h: ClientHello): Bytes { SignedPart(h) + h.pskMac }

  /** ClientHello.build. */
  function Build(c: Primitives, suite: byte, deviceId: Bytes, keyId: Bytes, nonce: Bytes, kemCt: Bytes,
                 psk: Bytes): Bytes {
    var body := Body(suite, deviceId, keyId, nonce, kemCt);
    body + HelloMac(c, psk, body)
  }

  /** Field lengths are those the suite prescribes. */
  predicate WellSized(h: ClientHello) {
    Params(h.suite).Some? && |h.deviceId| == DEVICE_ID_LEN && |h.keyId| == KEY_ID_LEN && |h.nonce| == NONCE_LEN &&
    |h.kemCt| == Params(h.suite).value.ct && |h.pskMac| == MAC_LEN
  }

  /** The one hello a payload encodes, if it encodes any. */
  function Decode(payload: Bytes): (r: Option<ClientHello>)
    ensures r.Some? ==> WellSized(r.value) && Encode(r.value) == payload
  {
    if |payload| < 2 || payload[0] != PROTOCOL_VERSION || Params(payload[1]).None? ||
       |payload| != ClientHelloLen(Params(payload[1]).value) then None
    else
      var ct := Params(payload[1]).value.ct;
      var h := ClientHello(payload[1], payload[2..10], payload[10..14], payload[14..46],
                           payload[46..46 + ct], payload[46 + ct..]);
      assert [PROTOCOL_VERSION, payload[1]] == payload[..2];
      assert Encode(h) == payload;
      Some(h)
  }

  /** Parsing inverts encoding, and accepts nothing but encodings. */
  lemma DecodeEncode(h: ClientHello)
    requires WellSized(h)
    ensures Decode(Encode(h)) == Some(h)
  {
    EncodedHead(h);
    HelloFields(h);
  }

  /** ClientHello.parse: a cursor moves over the payload once version, suite and length have been checked. */
  method Parse(payload: Bytes) returns (r: Option<ClientHello>)
    ensures r == Decode(payload)
  {
    if |payload| < 2 { return None; }
    if payload[0] != PROTOCOL_VERSION { return None; }
    var params := Params(payload[1]);
    if params.None? { return None; }
    if |payload| != ClientHelloLen(params.value) { return None; }
    var i := 2;
    var deviceId := Slice(payload, i, DEVICE_ID_LEN); i := i + DEVICE_ID_LEN;
    var keyId := Slice(payload, i, KEY_ID_LEN); i := i + KEY_ID_LEN;
    var nonce := Slice(payload, i, NONCE_LEN); i := i + NONCE_LEN;
    var kemCt := Slice(payload, i, params.value.ct); i := i + params.value.ct;
    var pskMac := Slice(payload, i, MAC_LEN);
    assert payload[i..i + MAC_LEN] == payload[i..];
    r := Some(ClientHello(payload[1], deviceId, keyId, nonce, kemCt, pskMac));
  }

  lemma EncodedHead(h: ClientHello)
    requires WellSized(h)
    ensures var s := Encode(h);
            |s| == ClientHelloLen(Params(h.suite).value) && s[0] == PROTOCOL_VERSION && s[1] == h.suite
  {
  }

  /** The encoding is injective: the suite byte fixes where every field ends. */
  lemma EncodeInjective(g: ClientHello, h: ClientHello)
    requires WellSized(g) && WellSized(h) && Encode(g) == Encode(h)
    ensures g == h
  {
    EncodedHead(g);
    EncodedHead(h);
    HelloFields(g);
    HelloFields(h);
  }

  /** Which suites there are, which are mode B, and how long their messages are. */
  lemma MessageSizes(suite: byte)
    ensures Params(suite).Some? <==> suite == 0x01 || suite == 0x02 || suite == 0x11 || suite == 0x12
    ensures Params(suite).Some? ==>
              var p := Params(suite).value;
              p.fs == (suite == 0x11 || suite == 0x12) &&
              ClientHelloLen(p) == (if suite == 0x01 || suite == 0x11 then 1166 else 846) &&
              ServerHelloLen(p) == (if suite == 0x11 then 1256 else if suite == 0x12 then 872 else 72) &&
              p.ct + MAC_LEN == (if suite == 0x01 || suite == 0x11 then 1120 else 800)
  {
  }

  /** Where the fields of a ClientHello are, and that the first byte is version 1. */
  lemma HelloLayout(h: ClientHello)
    requires WellSized(h)
    ensures var s := Encode(h); var n := |s| - 32;
            s[0] == 0x01 && s[1] == h.suite && s[2..10] == h.deviceId && s[10..14] == h.keyId && s[14..46] == h.nonce &&
            s[46..n] == h.kemCt && s[n..] == h.pskMac && s[..n] == SignedPart(h)
  {
    EncodedHead(h);
    HelloFields(h);
  }

  lemma HelloFields(h: ClientHello)
    requires WellSized(h)
    ensures var s := Encode(h); var ct := Params(h.suite).value.ct;
            |s| == HELLO_HEAD + ct + MAC_LEN &&
            h.deviceId == s[2..10] && h.keyId == s[10..14] && h.nonce == s[14..46] && h.kemCt == s[46..46 + ct] &&
            h.pskMac == s[46 + ct..]
  {
  }
}
