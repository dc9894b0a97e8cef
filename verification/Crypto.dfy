/**
 * The primitives the implementation calls into, as function values with only the
 * laws their standards promise: output lengths, KEM correctness, AEAD correctness.
 */
module Crypto {
  import opened Bytes

  type Bytes32 = s: Bytes | |s| == 32 witness seq(32, _ => 0)

  datatype Encapsulation = Refused | Encapsulated(ct: Bytes, ss: Bytes32)

  /**
   * `encaps` refuses a key that fails the modulus check of FIPS 203 section 7.2;
   * `decaps` is None where OpenSSL refuses the ciphertext's length.
   */
  datatype Primitives = Primitives(
    sha256: Bytes -> Bytes32,
    hmac: (Bytes, Bytes) -> Bytes32,
    encaps: (Bytes, Bytes) -> Encapsulation,
    decaps: (Bytes, Bytes) -> Option<Bytes32>,
    seal: (Bytes, Bytes, Bytes, Bytes) -> Bytes,
    open: (Bytes, Bytes, Bytes, Bytes) -> Option<Bytes>)

  const TAG_LEN: nat := 16

  /** Ciphertext length of the ML-KEM parameter set with this public key length. */
  function CtLen(ekLen: nat): nat { if ekLen == 800 then 768 else if ekLen == 1184 then 1088 else 1568 }

  ghost predicate KemLengths(c: Primitives) {
    forall ek, r :: c.encaps(ek, r).Encapsulated? ==> |c.encaps(ek, r).ct| == CtLen(|ek|)
  }

  /** dk and ek are a key pair: ek is canonical and what it encapsulates dk recovers. */
  ghost predicate KeyPair(c: Primitives, dk: Bytes, ek: Bytes) {
    forall r :: c.encaps(ek, r).Encapsulated? && c.decaps(dk, c.encaps(ek, r).ct) == Some(c.encaps(ek, r).ss)
  }

  ghost predicate AeadLengths(c: Primitives) {
    forall k, n, a, p :: |c.seal(k, n, a, p)| == |p| + TAG_LEN
  }

  ghost predicate AeadOpens(c: Primitives) {
    forall k, n, a, p :: c.open(k, n, a, c.seal(k, n, a, p)) == Some(p)
  }

  /** Two different HMAC queries with the same result. */
  predicate MacCollision(c: Primitives, k: Bytes, m: Bytes, k': Bytes, m': Bytes) {
    (k, m) != (k', m') && c.hmac(k, m) == c.hmac(k', m')
  }

  predicate HashCollision(c: Primitives, m: Bytes, m': Bytes) { m != m' && c.sha256(m) == c.sha256(m') }
}
