/**
 * SubjectPublicKeyInfo: the DER walker of the pinning tool, the fixed-header slice
 * of server and client, and the prefix trick that wraps a raw key again.
 */
module Spki {
  import opened Bytes
  import opened Crypto
  import opened Messages
  import opened Client

  // ---------------------------------------------------------------- the encoding, RFC 5280 section 4.1.2.7

  /** Bytes needed for n, none for 0. */
  function Width(n: nat): nat { if n == 0 then 0 else 1 + Width(n / 256) }

  /** A DER length: short form below 128, else the count of length bytes and the bytes. */
  function DerLength(n: nat): Bytes
    requires Width(n) < 128
  {
    if n < 128 then [n] else [0x80 + Width(n)] + BigEndian(n, Width(n))
  }

  predicate Encodable(n: nat) { Width(n) < 128 }

  function Inner(alg: Bytes, key: Bytes): Bytes
    requires Encodable(|alg|) && Encodable(1 + |key|)
  {
    [0x30] + DerLength(|alg|) + alg + [0x03] + DerLength(1 + |key|) + [0x00] + key
  }

  /** SEQUENCE { SEQUENCE { alg }, BIT STRING { no unused bits, key } }. */
  function EncodeSpki(alg: Bytes, key: Bytes): Bytes
    requires Encodable(|alg|) && Encodable(1 + |key|) && Encodable(|Inner(alg, key)|)
  {
    [0x30] + DerLength(|Inner(alg, key)|) + Inner(alg, key)
  }

  // ---------------------------------------------------------------- pin_server_key.py

  /** Python's s[a:b] for non-negative bounds. */
  function PySlice(s: Bytes, a: nat, b: nat): Bytes {
    var hi := if b < |s| then b else |s|;
    if a < hi then s[a..hi] else []
  }

  /** int.from_bytes(buf[i:i+count], "big"), the bytes past the end left out. */
  function LongLength(buf: Bytes, i: nat, count: nat): nat {
    if count == 0 then 0
    else if i + count > |buf| then LongLength(buf, i, count - 1)
    else 256 * LongLength(buf, i, count - 1) + buf[i + count - 1]
  }

  lemma {:induction false} LongLengthIsFromBytes(buf: Bytes, i: nat, count: nat)
    ensures LongLength(buf, i, count) == FromBigEndian(PySlice(buf, i, i + count))
  {
    if count > 0 {
      LongLengthIsFromBytes(buf, i, count - 1);
      if i + count <= |buf| { assert buf[i..i + count][..count - 1] == buf[i..i + count - 1]; }
      else { assert PySlice(buf, i, i + count) == PySlice(buf, i, i + count - 1); }
    }
  }

  /** The same bytes elsewhere have the same value. */
  lemma {:induction false} LongLengthShift(s: Bytes, i: nat, t: Bytes, j: nat, count: nat)
    requires i + count <= |s| && j + count <= |t| && s[i..i + count] == t[j..j + count]
    ensures LongLength(s, i, count) == LongLength(t, j, count)
  {
    if count > 0 {
      assert s[i..i + count - 1] == s[i..i + count][..count - 1] == t[j..j + count - 1];
      assert s[i + count - 1] == s[i..i + count][count - 1] == t[j + count - 1];
      LongLengthShift(s, i, t, j, count - 1);
    }
  }

  datatype Length = NoByte | Length(value: nat, next: nat)

  /** read_len: NoByte stands for the IndexError. */
  function ReadLength(buf: Bytes, i: nat): Length {
    if i >= |buf| then NoByte
    else if buf[i] < 0x80 then Length(buf[i], i + 1)
    else
      var count := buf[i] as int % 128;
      Length(LongLength(buf, i + 1, count), i + 1 + count)
  }

  /** A tag at i and the length after it. */
  function ReadHeader(buf: Bytes, i: nat, tag: byte): Length {
    if i >= |buf| || buf[i] != tag then NoByte else ReadLength(buf, i + 1)
  }

  /** The header of the BIT STRING, past the outer header and the AlgorithmIdentifier. */
  function BitString(der: Bytes): Length {
    var outer := ReadHeader(der, 0, 0x30);
    if outer.NoByte? then NoByte
    else
      var alg := ReadHeader(der, outer.next, 0x30);
      if alg.NoByte? then NoByte else ReadHeader(der, alg.next + alg.value, 0x03)
  }

  /** What the walker returns; None where it exits or raises. */
  function Walk(der: Bytes, expected: nat): Option<Bytes> {
    var bits := BitString(der);
    if bits.NoByte? || bits.next >= |der| || der[bits.next] != 0 then None
    else
      var raw := PySlice(der, bits.next + 1, bits.next + bits.value);
      if |raw| != expected then None else Some(raw)
  }

  /** read_len, called with the cursor; returns the length and the moved cursor. */
  method ReadLen(buf: Bytes, at: nat) returns (ok: bool, n: nat, i: nat)
    ensures ok <==> ReadLength(buf, at).Length?
    ensures ok ==> Length(n, i) == ReadLength(buf, at)
  {
    n, i := 0, at;
    if i >= |buf| { return false, n, i; }
    n := buf[i];
    i := i + 1;
    if n < 0x80 { return true, n, i; }
    var count := n % 128;
    LongLengthIsFromBytes(buf, i, count);
    return true, FromBigEndian(PySlice(buf, i, i + count)), i + count;
  }

  /** parse_spki: the cursor i moves from element to element. */
  method ParseSpki(der: Bytes, expected: nat) returns (r: Option<Bytes>)
    ensures r == Walk(der, expected)
  {
    var ok, len, i := SkipToKey(der);
    if !ok || i >= |der| { return None; }
    if der[i] != 0 { return None; }
    var raw := PySlice(der, i + 1, i + len);
    if |raw| != expected { return None; }
    return Some(raw);
  }

  method SkipToKey(der: Bytes) returns (ok: bool, len: nat, i: nat)
    ensures ok <==> BitString(der).Length?
    ensures ok ==> Length(len, i) == BitString(der)
  {
    ok, len, i := false, 0, 0;
    if i >= |der| || der[i] != 0x30 { return; }
    ok, len, i := ReadLen(der, i + 1);
    if !ok { return; }
    if i >= |der| || der[i] != 0x30 { return false, len, i; }
    ok, len, i := ReadLen(der, i + 1);
    if !ok { return; }
    i := i + len;
    if i >= |der| || der[i] != 0x03 { return false, len, i; }
    ok, len, i := ReadLen(der, i + 1);
  }

  // ---------------------------------------------------------------- exactly what the walker accepts

  /** A complete length field of value n. */
  predicate LengthField(l: Bytes, n: nat) { ReadLength(l, 0) == Length(n, |l|) }

  /**
   * How an accepted input is laid out around the key it yields. The outer length is
   * read but never compared with anything; a bit string that claims more than is
   * there is cut at the end of the input.
   */
  predicate Layout(der: Bytes, l: Layers, raw: Bytes) {
    der == [0x30] + l.l1 + [0x30] + l.l2 + l.alg + [0x03] + l.l3 + [0x00] + raw + l.rest &&
    LengthField(l.l1, l.n1) && LengthField(l.l2, |l.alg|) && LengthField(l.l3, l.n3) && Covers(l.n3, raw, l.rest)
  }

  /** The three length fields, the algorithm identifier and what follows the key. */
  datatype Layers = Layers(l1: Bytes, n1: nat, l2: Bytes, alg: Bytes, l3: Bytes, n3: nat, rest: Bytes)

  predicate Covers(n: nat, raw: Bytes, rest: Bytes) {
    n == 1 + |raw| || (n > 1 + |raw| && rest == []) || (n == 0 && raw == [])
  }

  /** A length field is read the same wherever it stands, as long as all of it is there. */
  lemma ReadAnywhere(pre: Bytes, l: Bytes, post: Bytes, n: nat)
    requires LengthField(l, n)
    ensures ReadLength(pre + l + post, |pre|) == Length(n, |pre| + |l|)
  {
    var s := pre + l + post;
    assert s[|pre|] == l[0];
    if l[0] >= 0x80 {
      var count := l[0] as int % 128;
      assert |l| == 1 + count;
      assert s[|pre| + 1..|pre| + 1 + count] == l[1..1 + count];
      LongLengthShift(s, |pre| + 1, l, 1, count);
    }
  }

  /** The bytes a length was read from are a length field, if they are all there. */
  lemma FieldAt(s: Bytes, i: nat)
    requires ReadLength(s, i).Length? && ReadLength(s, i).next <= |s|
    ensures LengthField(s[i..ReadLength(s, i).next], ReadLength(s, i).value)
  {
    var l := s[i..ReadLength(s, i).next];
    if s[i] >= 0x80 {
      var count := s[i] as int % 128;
      assert l[1..1 + count] == s[i + 1..i + 1 + count];
      LongLengthShift(s, i + 1, l, 1, count);
    }
  }

  lemma HeaderAnywhere(pre: Bytes, tag: byte, l: Bytes, post: Bytes, n: nat)
    requires LengthField(l, n)
    ensures ReadHeader(pre + [tag] + l + post, |pre|, tag) == Length(n, |pre| + 1 + |l|)
  {
    ReadAnywhere(pre + [tag], l, post, n);
  }

  /** Reading the three headers of a laid out input. */
  lemma HeadersRead(l1: Bytes, l2: Bytes, alg: Bytes, l3: Bytes, tail: Bytes, n1: nat, n3: nat)
    requires LengthField(l1, n1) && LengthField(l2, |alg|) && LengthField(l3, n3)
    ensures BitString([0x30] + l1 + [0x30] + l2 + alg + [0x03] + l3 + tail) ==
            Length(n3, 3 + |l1| + |l2| + |alg| + |l3|)
  {
    var p2 := [0x30] + l1;
    var p3 := p2 + [0x30] + l2 + alg;
    Regrouped(l1, l2, alg, l3, tail);
    HeaderAnywhere([], 0x30, l1, [0x30] + l2 + alg + [0x03] + l3 + tail, n1);
    HeaderAnywhere(p2, 0x30, l2, alg + [0x03] + l3 + tail, |alg|);
    HeaderAnywhere(p3, 0x03, l3, tail, n3);
  }

  lemma Regrouped(l1: Bytes, l2: Bytes, alg: Bytes, l3: Bytes, tail: Bytes)
    ensures var der := [0x30] + l1 + [0x30] + l2 + alg + [0x03] + l3 + tail;
            der == [] + [0x30] + l1 + ([0x30] + l2 + alg + [0x03] + l3 + tail) &&
            der == ([0x30] + l1) + [0x30] + l2 + (alg + [0x03] + l3 + tail)
  {
  }

  /** Whatever has the layout is accepted, for every algorithm identifier and key length. */
  lemma LayoutAccepted(der: Bytes, l: Layers, raw: Bytes)
    requires Layout(der, l, raw)
    ensures Walk(der, |raw|) == Some(raw)
  {
    var head := [0x30] + l.l1 + [0x30] + l.l2 + l.alg + [0x03] + l.l3;
    HeadersRead(l.l1, l.l2, l.alg, l.l3, [0x00] + raw + l.rest, l.n1, l.n3);
    assert der == head + ([0x00] + raw + l.rest);
    assert BitString(der) == Length(l.n3, |head|);
    KeyAfter(head, l.n3, raw, l.rest);
  }

  lemma KeyAfter(head: Bytes, n: nat, raw: Bytes, rest: Bytes)
    requires Covers(n, raw, rest)
    ensures var der := head + ([0x00] + raw + rest);
            der[|head|] == 0x00 && PySlice(der, |head| + 1, |head| + n) == raw
  {
    var der := head + ([0x00] + raw + rest);
    assert der[|head| + 1..] == raw + rest;
    assert der[|head| + 1..|head| + 1 + |raw|] == raw;
  }

  /** What the three headers of an accepted input say. */
  lemma HeadersOf(der: Bytes) returns (a: Length, b: Length, c: nat, d: Length)
    requires BitString(der).Length? && BitString(der).next < |der|
    ensures a.Length? && b.Length? && d == BitString(der)
    ensures c == b.next + b.value && 1 <= a.next < b.next <= c < d.next < |der| && der[0] == 0x30 &&
            der[a.next] == 0x30 && der[c] == 0x03
    ensures LengthField(der[1..a.next], a.value) && LengthField(der[a.next + 1..b.next], b.value) &&
            LengthField(der[c + 1..d.next], d.value)
  {
    a := ReadHeader(der, 0, 0x30);
    b := ReadHeader(der, a.next, 0x30);
    c := b.next + b.value;
    d := ReadHeader(der, c, 0x03);
    FieldAt(der, 1);
    FieldAt(der, a.next + 1);
    FieldAt(der, c + 1);
  }

  lemma Reassemble(s: Bytes, a: nat, b: nat, c: nat, d: nat, e: nat)
    requires 1 <= a < b <= c < d < e <= |s|
    ensures s == [s[0]] + s[1..a] + [s[a]] + s[a + 1..b] + s[b..c] + [s[c]] + s[c + 1..d] + [s[d]] + s[d + 1..e] +
            s[e..]
  {
    assert s[..a] == [s[0]] + s[1..a];
    assert s[..b] == s[..a] + [s[a]] + s[a + 1..b];
    assert s[..d] == s[..b] + s[b..c] + [s[c]] + s[c + 1..d];
    assert s == s[..d] + [s[d]] + s[d + 1..e] + s[e..];
  }

  /** Whatever is accepted has the layout. */
  lemma AcceptedLayout(der: Bytes, raw: Bytes) returns (l: Layers)
    requires Walk(der, |raw|) == Some(raw)
    ensures Layout(der, l, raw)
  {
    var a, b, c, d := HeadersOf(der);
    l := Cutting(der, a, b, c, d, raw);
  }

  lemma Cutting(der: Bytes, a: Length, b: Length, c: nat, d: Length, raw: Bytes) returns (l: Layers)
    requires a.Length? && b.Length? && d.Length?
    requires c == b.next + b.value && 1 <= a.next < b.next <= c < d.next < |der|
    requires der[0] == 0x30 && der[a.next] == 0x30 && der[c] == 0x03 && der[d.next] == 0
    requires LengthField(der[1..a.next], a.value) && LengthField(der[a.next + 1..b.next], b.value) &&
             LengthField(der[c + 1..d.next], d.value)
    requires raw == PySlice(der, d.next + 1, d.next + d.value)
    ensures Layout(der, l, raw)
  {
    var k := d.next;
    l := Layers(der[1..a.next], a.value, der[a.next + 1..b.next], der[b.next..c], der[c + 1..k], d.value,
        der[k + 1 + |raw|..]);
    assert der[k + 1..k + 1 + |raw|] == raw;
    Reassemble(der, a.next, b.next, c, k, k + 1 + |raw|);
  }

  // ---------------------------------------------------------------- round trip

  lemma {:induction false} WidthBounds(n: nat)
    ensures n < Pow256(Width(n))
  {
    if n > 0 { WidthBounds(n / 256); }
  }

  lemma DerLengthReads(n: nat)
    requires Encodable(n)
    ensures LengthField(DerLength(n), n)
  {
    if n >= 128 { LongFormReads(n, Width(n)); }
  }

  lemma LongFormReads(n: nat, w: nat)
    requires w == Width(n) < 128
    ensures LengthField([0x80 + w] + BigEndian(n, w), n)
  {
    WidthBounds(n);
    PackUnpack(n, w);
    LongFormCounts(BigEndian(n, w), w);
  }

  lemma LongFormCounts(s: Bytes, w: nat)
    requires |s| == w < 128
    ensures ReadLength([0x80 + w] + s, 0) == Length(FromBigEndian(s), 1 + w)
  {
    var l := [0x80 + w] + s;
    assert PySlice(l, 1, 1 + w) == s;
    LongLengthIsFromBytes(l, 1, w);
  }

  /** parse_spki inverts the encoding of every algorithm identifier and every key. */
  lemma SpkiRoundTrip(alg: Bytes, key: Bytes)
    requires Encodable(|alg|) && Encodable(1 + |key|) && Encodable(|Inner(alg, key)|)
    ensures forall n: nat :: Walk(EncodeSpki(alg, key), n) == if n == |key| then Some(key) else None
  {
    var l := Layers(DerLength(|Inner(alg, key)|), |Inner(alg, key)|, DerLength(|alg|), alg, DerLength(1 + |key|),
        1 + |key|, []);
    DerLengthReads(|Inner(alg, key)|);
    DerLengthReads(|alg|);
    DerLengthReads(1 + |key|);
    EncodedParts(l.l1, l.l2, alg, l.l3, key);
    LayoutAccepted(EncodeSpki(alg, key), l, key);
  }

  lemma EncodedParts(l1: Bytes, l2: Bytes, alg: Bytes, l3: Bytes, key: Bytes)
    ensures [0x30] + l1 + ([0x30] + l2 + alg + [0x03] + l3 + [0x00] + key) ==
            [0x30] + l1 + [0x30] + l2 + alg + [0x03] + l3 + [0x00] + key + []
  {
  }

  // ---------------------------------------------------------------- the fixed slice

  const SPKI_HEAD: nat := 22

  /** The length test of MlKemPrivateKey, raw_public_from_der and server_key_id, as the loop does it. */
  method RawPublicFromDer(der: Bytes) returns (r: Option<Bytes>)
    ensures r == RawPublic(der)
  {
    var lengths := [800, 1184, 1568];
    for k := 0 to |lengths|
      invariant forall j :: 0 <= j < k ==> |der| != lengths[j] + SPKI_HEAD
    {
      if |der| == lengths[k] + SPKI_HEAD { return Some(der[|der| - lengths[k]..]); }
    }
    assert |der| != lengths[0] + SPKI_HEAD && |der| != lengths[1] + SPKI_HEAD && |der| != lengths[2] + SPKI_HEAD;
    return None;
  }

  function RawPublic(der: Bytes): Option<Bytes> {
    if |der| >= SPKI_HEAD && MlKemKey(der[SPKI_HEAD..]) then Some(der[SPKI_HEAD..]) else None
  }

  /** An ML-KEM AlgorithmIdentifier holds nothing but an 11-byte object identifier. */
  const ALG_LEN: nat := 11

  predicate KeySized(key: Bytes) { 255 <= |key| <= 0xffff - 18 }

  lemma Widths(alg: Bytes, key: Bytes)
    requires |alg| == ALG_LEN && KeySized(key)
    ensures Width(|alg|) == 1 && Width(1 + |key|) == 2 && |Inner(alg, key)| == 18 + |key| && Width(18 + |key|) == 2
  {
    WidthTwo(1 + |key|);
    WidthTwo(18 + |key|);
    assert Width(11 / 256) == 0;
  }

  lemma WidthTwo(n: nat)
    requires 256 <= n < 0x1_0000
    ensures Width(n) == 2
  {
    assert Width(n / 256) == 1 + Width(n / 256 / 256);
  }

  /** For ML-KEM keys the header before the key is 22 bytes and depends on the key's length alone. */
  lemma FixedHeader(alg: Bytes, key: Bytes)
    requires |alg| == ALG_LEN && KeySized(key)
    ensures Width(|alg|) == 1 && Width(1 + |key|) == 2 && Encodable(|Inner(alg, key)|)
    ensures |EncodeSpki(alg, key)| == SPKI_HEAD + |key| && EncodeSpki(alg, key)[SPKI_HEAD..] == key
    ensures forall other :: |other| == |key| ==>
              Width(1 + |other|) == 2 && Encodable(|Inner(alg, other)|) &&
              EncodeSpki(alg, other) == EncodeSpki(alg, key)[..SPKI_HEAD] + other
  {
    Widths(alg, key);
    HeaderOf(alg, key);
    forall other: Bytes | |other| == |key|
      ensures Width(1 + |other|) == 2 && Encodable(|Inner(alg, other)|) &&
              EncodeSpki(alg, other) == EncodeSpki(alg, key)[..SPKI_HEAD] + other
    {
      Widths(alg, other);
      HeaderOf(alg, other);
    }
  }

  function Head(alg: Bytes, len: nat): Bytes
    requires Encodable(|alg|) && Encodable(1 + len) && Encodable(18 + len)
  {
    [0x30] + DerLength(18 + len) + [0x30] + DerLength(|alg|) + alg + [0x03] + DerLength(1 + len) + [0x00]
  }

  lemma HeaderOf(alg: Bytes, key: Bytes)
    requires |alg| == ALG_LEN && KeySized(key) && Encodable(|alg|) && Encodable(1 + |key|) && Encodable(18 + |key|)
    ensures |Inner(alg, key)| == 18 + |key| && EncodeSpki(alg, key) == Head(alg, |key|) + key &&
            |Head(alg, |key|)| == SPKI_HEAD
  {
    Widths(alg, key);
    EncodedParts(DerLength(18 + |key|), DerLength(|alg|), alg, DerLength(1 + |key|), key);
  }

  /** The 22 bytes themselves: SEQUENCE and BIT STRING with two-byte lengths around the identifier. */
  lemma HeaderBytes(alg: Bytes, key: Bytes)
    requires |alg| == ALG_LEN && MlKemKey(key)
    ensures Width(|alg|) == 1 && Width(1 + |key|) == 2 && Encodable(|Inner(alg, key)|)
    ensures EncodeSpki(alg, key)[..22] ==
            [0x30, 0x82] + U16(18 + |key|) + [0x30, 0x0b] + alg + [0x03, 0x82] + U16(1 + |key|) + [0x00]
  {
    Widths(alg, key);
    HeaderOf(alg, key);
    TwoByteLength(18 + |key|);
    TwoByteLength(1 + |key|);
    FirstOfTwo(Head(alg, |key|), key);
    JoinHeader(U16(18 + |key|), alg, U16(1 + |key|));
  }

  lemma FirstOfTwo(a: Bytes, b: Bytes)
    ensures (a + b)[..|a|] == a
  {
  }

  lemma JoinHeader(u: Bytes, alg: Bytes, w: Bytes)
    ensures [0x30] + ([0x82] + u) + [0x30] + [0x0b] + alg + [0x03] + ([0x82] + w) + [0x00] ==
            [0x30, 0x82] + u + [0x30, 0x0b] + alg + [0x03, 0x82] + w + [0x00]
  {
    assert [0x30] + ([0x82] + u) + [0x30] + [0x0b] == [0x30, 0x82] + u + [0x30, 0x0b];
    assert forall x: Bytes :: x + [0x03] + ([0x82] + w) == x + [0x03, 0x82] + w;
  }

  lemma TwoByteLength(n: nat)
    requires 256 <= n < 0x1_0000
    ensures Width(n) == 2 && DerLength(n) == [0x82] + U16(n)
  {
    WidthTwo(n);
    assert BigEndian(n, 2) == BigEndian(n / 256, 1) + [n % 256];
    assert BigEndian(n / 256, 1) == BigEndian(n / 256 / 256, 0) + [n / 256 % 256];
  }

  /** Both readers take the same key out of a well-formed ML-KEM key, and nothing else is accepted for its length. */
  lemma ReadersAgree(alg: Bytes, key: Bytes, expected: nat)
    requires |alg| == ALG_LEN && MlKemKey(key)
    ensures Width(|alg|) == 1 && Width(1 + |key|) == 2 && Encodable(|Inner(alg, key)|)
    ensures RawPublic(EncodeSpki(alg, key)) == Some(key)
    ensures Walk(EncodeSpki(alg, key), expected) == if expected == |key| then RawPublic(EncodeSpki(alg, key)) else None
  {
    FixedHeader(alg, key);
    SpkiRoundTrip(alg, key);
  }

  /** On any bytes at all the two agree, provided nothing follows the bit string. */
  lemma ReadersAgreeWithoutTail(der: Bytes, expected: nat)
    requires Walk(der, expected).Some? && RawPublic(der).Some? && |der| == expected + SPKI_HEAD
    requires BitString(der).next + BitString(der).value >= |der|
    ensures Walk(der, expected) == RawPublic(der)
  {
    assert PySlice(der, BitString(der).next + 1, |der|) == der[BitString(der).next + 1..];
  }

  // ---------------------------------------------------------------- the key id

  /** server_key_id as the pinning tool prints it. */
  function PinId(c: Primitives, der: Bytes, expected: nat): Option<Bytes> {
    var raw := Walk(der, expected);
    if raw.None? then None else Some(c.sha256(raw.value)[..4])
  }

  /** key_id of the server, and server_key_id of the Python client. */
  function ServerId(c: Primitives, der: Bytes): Option<Bytes> {
    var raw := RawPublic(der);
    if raw.None? then None else Some(c.sha256(raw.value)[..4])
  }

  /** The id pinned in the firmware, the server's own and the one either client sends coincide. */
  lemma KeyIdsCoincide(c: Primitives, alg: Bytes, key: Bytes)
    requires |alg| == ALG_LEN && MlKemKey(key)
    ensures Width(|alg|) == 1 && Width(1 + |key|) == 2 && Encodable(|Inner(alg, key)|)
    ensures PinId(c, EncodeSpki(alg, key), |key|) == ServerId(c, EncodeSpki(alg, key)) == Some(PinnedId(c, key))
  {
    ReadersAgree(alg, key, |key|);
  }

  // ---------------------------------------------------------------- wrap_raw_pubkey

  /** Python's s[:m], also for negative m. */
  function PyTake(s: Bytes, m: int): Bytes {
    if m >= |s| then s else if m >= 0 then s[..m] else if m + |s| >= 0 then s[..m + |s|] else []
  }

  function Wrap(template: Bytes, raw: Bytes): Option<Bytes> {
    var prefix := PyTake(template, |template| - |raw|);
    if |prefix| != SPKI_HEAD then None else Some(prefix + raw)
  }

  /**
   * The prefix check does not accept exactly the keys of the template's size: a
   * raw key more than twice as long slips through the negative slice bound.
   */
  lemma WrapAccepts(template: Bytes, raw: Bytes)
    ensures Wrap(template, raw).Some? <==>
            |template| == |raw| + SPKI_HEAD || (2 * |template| == |raw| + SPKI_HEAD && |template| < |raw|)
  {
  }

  lemma WrapTakesALongKey()
    ensures var template, raw := seq(822, _ => 0), seq(1622, _ => 0);
            Wrap(template, raw).Some? && |raw| != 800
  {
  }

  /**
   * For a key that arrives in a ServerHello the check is the size comparison, and
   * the result is the encoding of that key: both readers get it back.
   */
  lemma WrapInverts(alg: Bytes, pinned: Bytes, raw: Bytes)
    requires |alg| == ALG_LEN && MlKemKey(pinned) && (|raw| == 800 || |raw| == 1184)
    ensures Width(|alg|) == 1 && Width(1 + |pinned|) == 2 && Encodable(|Inner(alg, pinned)|)
    ensures var w := Wrap(EncodeSpki(alg, pinned), raw);
            (w.Some? <==> |raw| == |pinned|) &&
            (w.Some? ==>
               w.value[SPKI_HEAD..] == raw && Walk(w.value, |raw|) == Some(raw) && RawPublic(w.value) == Some(raw))
  {
    FixedHeader(alg, pinned);
    WrapAccepts(EncodeSpki(alg, pinned), raw);
    if |raw| == |pinned| {
      assert Wrap(EncodeSpki(alg, pinned), raw) == Some(EncodeSpki(alg, raw));
      ReadersAgree(alg, raw, |raw|);
    }
  }
}
