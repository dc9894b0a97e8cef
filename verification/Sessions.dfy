/**
 * Whole sessions of either client: what goes out after the handshake, down to the
 * Close frame, and what the server makes of it.
 */
module Sessions {
  import opened Bytes
  import opened Crypto
  import opened Messages
  import opened Framing
  import opened Records
  import opened Client
  import opened Server
  import opened Completeness
  import opened Refusals
  import F = Firmware

  // ---------------------------------------------------------------- the stream

  lemma {:induction false} AllEncryptable(gcm: nat -> bool, n: nat)
    ensures F.Encryptable(gcm, n) == n <==> forall k: nat :: k < n ==> gcm(k)
  {
    if n > 0 {
      AllEncryptable(gcm, n - 1);
      if F.Encryptable(gcm, n) == n { assert F.Encryptable(gcm, n - 1) == n - 1 && gcm(n - 1); }
    }
  }

  /**
   * The firmware's stream is the record stream of either client: every record in
   * order and then a Close frame, or, where an encryption fails, the records before
   * it and nothing more.
   */
  lemma SessionStreamIsTail(c: Primitives, key: Bytes, sid: Bytes, plains: seq<Bytes>, gcm: nat -> bool)
    ensures var s, k := F.SessionStream(c, key, sid, plains, gcm), F.Encryptable(gcm, |plains|);
            var all := Tail(c, key, sid, plains[..k]);
            s <= all &&
            if forall n: nat :: n < |plains| ==> gcm(n)
            then s == Tail(c, key, sid, plains) && |s| >= 3 && s[|s| - 3..] == [0x7f, 0, 0]
            else k < |plains| && s == all[..|all| - 3]
  {
    AllEncryptable(gcm, |plains|);
    var k := F.Encryptable(gcm, |plains|);
    var stream := Stream(c, key, sid, plains[..k]);
    if k == |plains| { assert plains[..k] == plains; }
    assert (stream + EncodeFrame(CLOSE))[|stream|..] == EncodeFrame(CLOSE);
    assert (stream + EncodeFrame(CLOSE))[..|stream|] == stream && stream + [] == stream;
  }

  // ---------------------------------------------------------------- run_happy_path

  /**
   * The Python client after its handshake: each plaintext sealed and sent as a Data
   * frame, then Close. A failed write raises and ends it.
   */
  method SendAllAndClose(c: Primitives, key: Bytes, sid: Bytes, plains: seq<Bytes>, sock: Socket) returns (ok: bool)
    requires AeadLengths(c) && Deliverable(plains)
    modifies sock
    ensures var all := Tail(c, key, sid, plains);
            ok == (|all| <= old(sock.writable)) && sock.outgoing == old(sock.outgoing) + Cut(all, old(sock.writable))
  {
    ghost var out0, writable0 := sock.outgoing, sock.writable;
    ghost var all := Stream(c, key, sid, plains);
    F.CutTwice(out0, all, EncodeFrame(CLOSE), writable0);
    var stream := new RecordStream(c, key, sid);
    ghost var sent: Bytes := [];
    assert plains[..0] == [] && out0 + [] == out0;
    for n := 0 to |plains|
      invariant stream.c == c && stream.key == key && stream.sessionId == sid && stream.sendSeq == n
      invariant sent == Stream(c, key, sid, plains[..n]) && |sent| <= writable0
      invariant sock.outgoing == out0 + sent && sock.writable == writable0 - |sent|
    {
      assert plains[n] in plains;
      RecordSize(c, key, sid, n, plains[n]);
      var payload := stream.Seal(plains[n]);
      ghost var f := EncodeFrame(RecordFrame(c, key, sid, n, plains[n]));
      F.StreamNext(c, key, sid, plains, n, out0, sent, f, writable0);
      ok := sock.WriteFrame(Frame(FRAME_DATA, payload.value));
      if !ok { return; }
      sent := sent + f;
    }
    assert plains[..|plains|] == plains;
    ok := sock.WriteFrame(Frame(FRAME_CLOSE, []));
  }

  // ---------------------------------------------------------------- at the server

  /**
   * End to end for a whole session of either client: from the bytes the client puts
   * on the wire, cut where its peer stops taking them, the server delivers the
   * plaintexts from the start, in order; with room for everything it delivers
   * exactly those sealed before any failure, and ends in order.
   */
  lemma SessionArrives(c: Primitives, s: Setup, v: ServerSetup, room: nat, serverRoom: nat, plains: seq<Bytes>,
                       gcm: nat -> bool)
    returns (fromServer: Bytes, h: Handshake, r: Service)
    requires Matching(c, s, v) && AeadLengths(c) && AeadOpens(c) && Deliverable(plains)
    requires room >= WireBytes(s.suite) && serverRoom >= WireBytes(s.suite)
    ensures h == Shake(c, s, fromServer, room) && h.Established?
    ensures r == Serve(c, v, Cut(h.sent + F.SessionStream(c, h.c2s, h.sid, plains, gcm), room), serverRoom)
    ensures r.Served? && r.c2s == h.c2s && r.sid == h.sid && r.sent == fromServer
    ensures var all, k := h.sent + F.SessionStream(c, h.c2s, h.sid, plains, gcm), F.Encryptable(gcm, |plains|);
            PrefixDelivery(r.delivery, plains[..k], room >= |all|) &&
            (k == |plains| <==> forall n: nat :: n < |plains| ==> gcm(n)) && plains[..|plains|] == plains
  {
    var t := HonestScript(c, s, v);
    HandshakeSize(c, s, v, t);
    CompleteAtTheEnd(c, s, v, t, room, serverRoom);
    fromServer := FromServer(v, t);
    h := Shake(c, s, fromServer, room);
    r := StreamServed(c, s, v, t, room, serverRoom, plains, gcm);
    AllEncryptable(gcm, |plains|);
  }

  lemma StreamServed(c: Primitives, s: Setup, v: ServerSetup, t: Script, room: nat, serverRoom: nat,
                     plains: seq<Bytes>, gcm: nat -> bool) returns (r: Service)
    requires Follows(c, s, v, t) && AeadLengths(c) && AeadOpens(c) && Deliverable(plains)
    requires room >= |FromClient(t)| && serverRoom >= WireBytes(s.suite)
    ensures var all := FromClient(t) + F.SessionStream(c, t.c2s, v.sid, plains, gcm);
            r == Serve(c, v, Cut(all, room), serverRoom) && r.Served? && r.c2s == t.c2s && r.sid == v.sid &&
            r.sent == FromServer(v, t) &&
            PrefixDelivery(r.delivery, plains[..F.Encryptable(gcm, |plains|)], room >= |all|)
  {
    var stream := F.SessionStream(c, t.c2s, v.sid, plains, gcm);
    var more := Cut(stream, room - |FromClient(t)|);
    CutAfter(FromClient(t), stream, room);
    r := ServedOn(c, s, v, t, serverRoom, more);
    CutStreamDelivery(c, t.c2s, v.sid, plains, gcm, room - |FromClient(t)|);
  }

  lemma CutAfter(a: Bytes, b: Bytes, n: nat)
    requires |a| <= n
    ensures Cut(a + b, n) == a + Cut(b, n - |a|)
  {
    F.CutTwice([], a, b, n);
    assert [] + a + Cut(b, n - |a|) == a + Cut(b, n - |a|) && [] + Cut(a + b, n) == Cut(a + b, n);
  }

  lemma CutStreamDelivery(c: Primitives, key: Bytes, sid: Bytes, plains: seq<Bytes>, gcm: nat -> bool, room: nat)
    requires AeadLengths(c) && AeadOpens(c) && Deliverable(plains)
    ensures var s := F.SessionStream(c, key, sid, plains, gcm);
            PrefixDelivery(Deliver(c, key, sid, -1, Cut(s, room)), plains[..F.Encryptable(gcm, |plains|)], room >= |s|)
  {
    var s, ps := F.SessionStream(c, key, sid, plains, gcm), plains[..F.Encryptable(gcm, |plains|)];
    SessionStreamIsTail(c, key, sid, plains, gcm);
    var all := Tail(c, key, sid, ps);
    var cut := if room < |s| then room else |s|;
    assert Cut(s, room) == Cut(all, cut);
    TailDelivery(c, key, sid, ps, cut);
    if room >= |s| && |s| < |all| { CloseEnds(c, key, sid, ps, [], []); }
    if room >= |s| && |s| < |all| { assert s == Stream(c, key, sid, ps) + []; }
  }
}
