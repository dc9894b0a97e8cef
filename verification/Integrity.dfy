/**
 * What reaches the server's application, for every byte stream an adversary may
 * feed the record loop: with an AEAD that opens nothing but what was sealed, only
 * records of this session's client, in order, each at most once.
 */
module Integrity {
  import opened Bytes
  import opened Crypto
  import opened Framing
  import opened Messages
  import opened Records
  import opened Server

  /** One encryption somewhere in the system. */
  datatype Sealing = Sealing(key: Bytes, nonce: Bytes, aad: Bytes, plain: Bytes, ct: Bytes)

  /** Decryption succeeds only on what was encrypted under the same key, nonce and associated data. */
  ghost predicate OpensOnlyLogged(c: Primitives, log: set<Sealing>) {
    forall k, n, a, ct :: c.open(k, n, a, ct).Some? ==> Sealing(k, n, a, c.open(k, n, a, ct).value, ct) in log
  }

  function SealingOf(c: Primitives, key: Bytes, sid: Bytes, n: nat, plain: Bytes): Sealing {
    Sealing(key, Nonce(n), Aad(sid, n, |plain|), plain, c.seal(key, Nonce(n), Aad(sid, n, |plain|), plain))
  }

  /** Under this key only the records of one session were sealed; other keys may have sealed anything. */
  ghost predicate OnlySession(c: Primitives, log: set<Sealing>, key: Bytes, sid: Bytes, plains: seq<Bytes>) {
    |plains| <= TWO64 && (forall p <- plains :: |p| < 0x1_0000) &&
    forall e <- log :: e.key == key ==> SealedAt(c, e, key, sid, plains)
  }

  ghost predicate SealedAt(c: Primitives, e: Sealing, key: Bytes, sid: Bytes, plains: seq<Bytes>) {
    exists i: nat :: i < |plains| && e == SealingOf(c, key, sid, i, plains[i])
  }

  lemma U16Injective(m: nat, n: nat)
    requires m < 0x1_0000 && n < 0x1_0000 && U16(m) == U16(n)
    ensures m == n
  {
    assert U16(m)[0] == m / 256 && U16(n)[0] == n / 256 && U16(m)[1] == m % 256 && U16(n)[1] == n % 256;
  }

  lemma AadLength(sid: Bytes, sid': Bytes, m: nat, n: nat, k: nat, l: nat)
    requires |sid| == |sid'| && k < 0x1_0000 && l < 0x1_0000 && Aad(sid, m, k) == Aad(sid', n, l)
    ensures k == l
  {
    var at := |sid| + 8;
    assert Aad(sid, m, k)[at..] == U16(k) && Aad(sid', n, l)[at..] == U16(l);
    U16Injective(k, l);
  }

  /** Packing a length that was read gives its two bytes back. */
  lemma LengthBytes(hi: byte, lo: byte)
    ensures ReadU16(hi, lo) < 0x1_0000 && U16(ReadU16(hi, lo)) == [hi, lo]
  {
  }

  /** A record is its sequence number, its length and the sealed bytes. */
  lemma RecordParts(payload: Bytes)
    requires |payload| >= 10
    ensures payload == payload[..8] + [payload[8], payload[9]] + payload[10..]
  {
  }

  /** A payload is accepted only if it is, byte for byte, a record of the session with a number above the last. */
  lemma AcceptedIsGenuine(c: Primitives, log: set<Sealing>, key: Bytes, sid: Bytes, plains: seq<Bytes>, last: int,
                          payload: Bytes)
    requires OpensOnlyLogged(c, log) && OnlySession(c, log, key, sid, plains)
    ensures var r := OpenRecord(c, key, sid, last, payload);
            r.Accepted? ==> last < r.n < |plains| && r.plain == plains[r.n]
    ensures var r := OpenRecord(c, key, sid, last, payload);
            r.Accepted? ==> payload == SealRecord(c, key, sid, r.n, r.plain)
  {
    if OpenRecord(c, key, sid, last, payload).Accepted? {
      var n, len := FromBigEndian(payload[..8]), ReadU16(payload[8], payload[9]);
      var p, ct := c.open(key, Nonce(n), Aad(sid, n, len), payload[10..]).value, payload[10..];
      Pow256Values();
      UnpackPack(payload[..8]);
      LengthBytes(payload[8], payload[9]);
      RecordParts(payload);
      var i := SealedIndex(c, log, key, sid, plains, Sealing(key, Nonce(n), Aad(sid, n, len), p, ct));
      NonceInjective(n, i);
      AadLength(sid, sid, n, i, len, |plains[i]|);
    }
  }

  lemma SealedIndex(c: Primitives, log: set<Sealing>, key: Bytes, sid: Bytes, plains: seq<Bytes>, e: Sealing)
    returns (i: nat)
    requires OnlySession(c, log, key, sid, plains) && e in log && e.key == key
    ensures i < |plains| && e == SealingOf(c, key, sid, i, plains[i]) && |plains[i]| < 0x1_0000
  {
    assert SealedAt(c, e, key, sid, plains);
    i :| i < |plains| && e == SealingOf(c, key, sid, i, plains[i]);
    assert plains[i] in plains;
  }

  /** The plaintexts at these strictly increasing positions, all above `last`. */
  predicate Picks(got: seq<Bytes>, plains: seq<Bytes>, at: seq<nat>, last: int) {
    |at| == |got| && (forall k :: 0 <= k < |at| ==> last < at[k] < |plains| && got[k] == plains[at[k]]) &&
    forall j, k :: 0 <= j < k < |at| ==> at[j] < at[k]
  }

  /**
   * End-to-end record integrity of the record loop: whatever arrives, what is
   * delivered is a subsequence of what the client sealed, by strictly increasing
   * sequence numbers.
   */
  lemma {:induction false} DeliveredWasSealed(c: Primitives, log: set<Sealing>, key: Bytes, sid: Bytes,
                                              plains: seq<Bytes>, last: int, incoming: Bytes) returns (at: seq<nat>)
    requires OpensOnlyLogged(c, log) && OnlySession(c, log, key, sid, plains)
    ensures Picks(Deliver(c, key, sid, last, incoming).plains, plains, at, last)
    decreases |incoming|
  {
    at := [];
    var f := ParseFrame(incoming, MAX_FRAME);
    if f.Good? && f.frame.ftype == FRAME_DATA {
      var r := OpenRecord(c, key, sid, last, f.frame.payload);
      if r.Accepted? {
        AcceptedIsGenuine(c, log, key, sid, plains, last, f.frame.payload);
        var rest := DeliveredWasSealed(c, log, key, sid, plains, r.n, f.rest);
        at := [r.n] + rest;
      }
    }
  }
}
