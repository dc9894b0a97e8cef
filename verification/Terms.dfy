/**
 * Symbolic cryptography for PQC-IoT-1.
 *
 * One constructor per primitive. HMAC is a single symbol: the hello MAC, both
 * HKDF steps and both confirmation MACs are all `Mac`, so no domain separation
 * is assumed that the key schedule does not provide itself.
 */
module Terms {

  datatype Label = Hello | SrvConfirm | CliConfirm | C2s | S2c

  datatype Term =
    | Empty                                  // b"", the absent ek_E and ct_eph of mode A
    | Byte(n: nat)                           // version, suite, HKDF counter
    | Dev(n: nat)                            // a device id
    | Seq(n: nat)                            // a record's sequence number, as u64
    | Len(n: nat)                            // a record's length, as u16
    | GcmNonce(n: nat)                       // four zero bytes and the sequence number
    | Own(n: nat)                            // values and keys the adversary makes up
    | Tag(name: Label)
    | ClientNonce(run: nat)
    | ServerNonce(run: nat)
    | SessionId(run: nat)
    | Psk(dev: nat)
    | StaticSk                               // dk_S
    | EphSk(run: nat)                        // dk_E of one server run
    | Coins(run: nat, eph: bool)             // randomness of a client's encapsulations
    | Payload(run: nat, n: nat)              // n-th plaintext of a client run
    | Pair(l: Term, r: Term)
    | Hash(m: Term)
    | KeyId(m: Term)                         // first four bytes of the hash
    | Mac(key: Term, msg: Term)
    | Ek(sk: Term)
    | Encap(ek: Term, coins: Term)
    | Shared(ek: Term, coins: Term)
    | Rejected(sk: Term, ct: Term)           // implicit rejection, FIPS 203
    | Seal(key: Term, nonce: Term, aad: Term, plain: Term)

  /** Decapsulation never fails on the wrong key: it yields an unrelated secret. */
  function Decap(sk: Term, ct: Term): Term {
    if ct.Encap? && ct.ek == Ek(sk) then Shared(ct.ek, ct.coins) else Rejected(sk, ct)
  }

  /** The modulus check of FIPS 203 section 7.2: only well-formed keys are encapsulated to. */
  predicate Canonical(ek: Term) { ek.Ek? }

  /** What the adversary has from the start: values it can write down, and the server's public key. */
  predicate Guessable(t: Term) {
    t.Empty? || t.Byte? || t.Dev? || t.Seq? || t.Len? || t.GcmNonce? || t.Own? || t.Tag? || t == Ek(StaticSk)
  }

  /** One inference of the adversary. */
  datatype Rule =
    | RPublic(t: Term)
    | RPair(a: Term, b: Term) | RFst(a: Term, b: Term) | RSnd(a: Term, b: Term)
    | RHash(m: Term) | RKeyId(m: Term) | RMac(k: Term, m: Term)
    | REk(sk: Term) | REncap(e: Term, r: Term) | RShared(e: Term, r: Term) | RDecap(sk: Term, c: Term)
    | RSeal(k: Term, nonce: Term, aad: Term, p: Term) | ROpen(k: Term, nonce: Term, aad: Term, p: Term)

  predicate Premises(rule: Rule, know: set<Term>) {
    match rule
    case RPublic(t) => Guessable(t)
    case RPair(a, b) => a in know && b in know
    case RFst(a, b) => Pair(a, b) in know
    case RSnd(a, b) => Pair(a, b) in know
    case RHash(m) => m in know
    case RKeyId(m) => m in know
    case RMac(k, m) => k in know && m in know
    case REk(sk) => sk in know
    case REncap(e, r) => e in know && r in know
    case RShared(e, r) => e in know && r in know
    case RDecap(sk, c) => sk in know && c in know
    case RSeal(k, n, aad, p) => k in know && n in know && aad in know && p in know
    case ROpen(k, n, aad, p) => Seal(k, n, aad, p) in know && k in know
  }

  function Conclusion(rule: Rule): Term {
    match rule
    case RPublic(t) => t
    case RPair(a, b) => Pair(a, b)
    case RFst(a, _) => a
    case RSnd(_, b) => b
    case RHash(m) => Hash(m)
    case RKeyId(m) => KeyId(m)
    case RMac(k, m) => Mac(k, m)
    case REk(sk) => Ek(sk)
    case REncap(e, r) => Encap(e, r)
    case RShared(e, r) => Shared(e, r)
    case RDecap(sk, c) => Decap(sk, c)
    case RSeal(k, n, aad, p) => Seal(k, n, aad, p)
    case ROpen(_, _, _, p) => p
  }

  /**
   * What the adversary may come to know, given the terms honest parties sent
   * under a key (`log`) and the secrets handed over by compromise (`leaked`).
   */
  ghost predicate Pub(leaked: set<Term>, log: set<Term>, t: Term)
    decreases t
  {
    match t
    case Psk(_) => t in leaked
    case StaticSk => t in leaked
    case EphSk(_) => t in leaked
    case Coins(_, _) => t in leaked
    case Payload(_, _) => t in leaked
    case Pair(a, b) => Pub(leaked, log, a) && Pub(leaked, log, b)
    case Hash(m) => Pub(leaked, log, m)
    case Mac(k, m) => t in log || t in leaked || (Pub(leaked, log, k) && Pub(leaked, log, m))
    case Shared(e, r) => t in leaked || Pub(leaked, log, r) || (e.Ek? && Pub(leaked, log, e.sk))
    case Rejected(sk, _) => t in leaked || Pub(leaked, log, sk)
    case Seal(k, n, aad, p) =>
      t in log ||
      (Pub(leaked, log, k) && Pub(leaked, log, n) && Pub(leaked, log, aad) && Pub(leaked, log, p))
    case _ => true
  }

  lemma {:induction false} PubMonotone(leaked: set<Term>, log: set<Term>, leaked': set<Term>, log': set<Term>, t: Term)
    requires leaked <= leaked' && log <= log'
    requires Pub(leaked, log, t)
    ensures Pub(leaked', log', t)
    decreases t
  {
    match t
    case Pair(a, b) =>
      PubMonotone(leaked, log, leaked', log', a);
      PubMonotone(leaked, log, leaked', log', b);
    case Hash(m) => PubMonotone(leaked, log, leaked', log', m);
    case Mac(k, m) =>
      if t !in log && t !in leaked {
        PubMonotone(leaked, log, leaked', log', k);
        PubMonotone(leaked, log, leaked', log', m);
      }
    case Shared(e, r) =>
      if t !in leaked {
        if Pub(leaked, log, r) { PubMonotone(leaked, log, leaked', log', r); }
        else { PubMonotone(leaked, log, leaked', log', e.sk); }
      }
    case Rejected(sk, _) =>
      if t !in leaked { PubMonotone(leaked, log, leaked', log', sk); }
    case Seal(k, n, aad, p) =>
      if t !in log {
        PubMonotone(leaked, log, leaked', log', k);
        PubMonotone(leaked, log, leaked', log', n);
        PubMonotone(leaked, log, leaked', log', aad);
        PubMonotone(leaked, log, leaked', log', p);
      }
    case _ =>
  }

  /**
   * No inference leaves the set: from public premises only public conclusions
   * follow, except that opening a logged record yields its plaintext.
   */
  lemma DeductionStaysPublic(leaked: set<Term>, log: set<Term>, know: set<Term>, rule: Rule)
    requires forall t <- know :: Pub(leaked, log, t)
    requires Premises(rule, know)
    requires rule.ROpen? ==> Seal(rule.k, rule.nonce, rule.aad, rule.p) !in log || Pub(leaked, log, rule.p)
    ensures Pub(leaked, log, Conclusion(rule))
  {
    match rule
    case RFst(a, b) => assert Pub(leaked, log, Pair(a, b));
    case RSnd(a, b) => assert Pub(leaked, log, Pair(a, b));
    case RDecap(sk, c) => assert Pub(leaked, log, sk);
    case ROpen(k, n, aad, p) => assert Pub(leaked, log, Seal(k, n, aad, p));
    case _ =>
  }
}
