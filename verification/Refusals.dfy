/**
 * Failure handling on the wire: whatever arrives, neither end says more than its own
 * next message, a refused message is answered by nothing at all, and the first
 * record out of place ends the session.
 */
module Refusals {
  import opened Bytes
  import opened Crypto
  import opened KeySchedule
  import opened Messages
  import opened Framing
  import opened Records
  import opened Client
  import opened Server
  import opened Completeness
  import opened Integrity

  // ---------------------------------------------------------------- the server

  /** The ServerHello frame a server would send for an admitted hello with this MAC. */
  function ReplyFrame(v: ServerSetup, fs: bool, mac: Bytes): Frame {
    Frame(0x02, v.sn + v.sid + (if fs then v.ekE else []) + mac)
  }

  predicate IsFsSuite(suite: byte) { suite == 0x11 || suite == 0x12 }

  lemma AdmittedSuite(c: Primitives, v: ServerSetup, f: Frame)
    requires Admit(c, v, f).Admitted?
    ensures var a := Admit(c, v, f);
            Proven(c, v, f) && Params(a.h.suite).Some? && a.h == Decode(f.payload).value &&
            Fs(a) == IsFsSuite(Decode(f.payload).value.suite)
  {
    AdmittedIsProven(c, v, f);
    MessageSizes(Admit(c, v, f).h.suite);
  }

  /**
   * The server answers proven hellos only, and its whole answer is one ServerHello
   * frame or as much of it as the peer takes. To a hello with an unknown device, a
   * foreign key id or a wrong MAC, and to anything else, it sends nothing.
   */
  lemma AnswersOnlyProvenHellos(c: Primitives, v: ServerSetup, incoming: Bytes, writable: nat)
    ensures var sent := Serve(c, v, incoming, writable).sent; var first := ParseFrame(incoming, 4096);
            sent != [] ==>
              first.Good? && Proven(c, v, first.frame) &&
              var fs := IsFsSuite(Decode(first.frame.payload).value.suite);
              exists mac: Bytes32 :: sent <= EncodeFrame(ReplyFrame(v, fs, mac))
  {
    var first := ParseFrame(incoming, MAX_FRAME);
    if first.Good? && Admit(c, v, first.frame).Admitted? {
      AdmittedSuite(c, v, first.frame);
      var mac := AdmittedAnswer(c, v, first.frame, first.rest, writable);
    }
  }

  /** What is sent to an admitted hello, which does not depend on anything that comes later. */
  lemma AdmittedAnswer(c: Primitives, v: ServerSetup, f: Frame, rest: Bytes, writable: nat) returns (mac: Bytes32)
    requires Admit(c, v, f).Admitted?
    ensures var a := Admit(c, v, f);
            ServeAdmitted(c, v, a, f.payload, rest, writable).sent == AnswerTo(c, v, f, writable) &&
            AnswerTo(c, v, f, writable) <= EncodeFrame(ReplyFrame(v, Fs(a), mac))
  {
    var a := Admit(c, v, f);
    var m := MacOf(c, v, a, f.payload);
    if m.Some? {
      mac := m.value;
      var f2 := ServerHello(v, Fs(a), mac);
      assert f2 == ReplyFrame(v, Fs(a), mac) && [] + EncodeFrame(f2) == EncodeFrame(f2);
    } else {
      mac := seq(32, _ => 0);
    }
  }

  /** The answer as a function of the first frame alone. */
  function AnswerTo(c: Primitives, v: ServerSetup, f: Frame, writable: nat): Bytes {
    var a := Admit(c, v, f);
    if a.Denied? || MacOf(c, v, a, f.payload).None? then []
    else
      var reply := ReplyFrame(v, Fs(a), MacOf(c, v, a, f.payload).value);
      if |reply.payload| > 4096 then [] else Cut(EncodeFrame(reply), writable)
  }

  /** Nothing the peer sends after its first frame changes a byte of what the server sends. */
  lemma AnswerIgnoresTheRest(c: Primitives, v: ServerSetup, f: Frame, x: Bytes, y: Bytes, writable: nat)
    requires |f.payload| <= 4096
    ensures Serve(c, v, EncodeFrame(f) + x, writable).sent == Serve(c, v, EncodeFrame(f) + y, writable).sent
  {
    FrameRoundTrip(f, x, MAX_FRAME);
    FrameRoundTrip(f, y, MAX_FRAME);
    if Admit(c, v, f).Admitted? {
      var m := AdmittedAnswer(c, v, f, x, writable);
      m := AdmittedAnswer(c, v, f, y, writable);
    }
  }

  /** A server that completes has read a ClientHello frame, type 1, and a ClientFinished frame, type 3. */
  lemma CompletedOnTwoFrames(c: Primitives, v: ServerSetup, incoming: Bytes, writable: nat)
    ensures var r := Serve(c, v, incoming, writable); var first := ParseFrame(incoming, 4096);
            r.Served? ==>
              first.Good? && first.frame.ftype == 0x01 && Proven(c, v, first.frame) &&
              ParseFrame(first.rest, 4096).Good? &&
              var second := ParseFrame(first.rest, 4096);
              second.frame.ftype == 0x03 && r.sid == v.sid &&
              r.delivery == Deliver(c, r.c2s, v.sid, -1, second.rest)
  {
    var first := ParseFrame(incoming, MAX_FRAME);
    if first.Good? && Admit(c, v, first.frame).Admitted? {
      AdmittedSuite(c, v, first.frame);
    }
  }

  // ---------------------------------------------------------------- the client

  /** The key the client confirms a ServerHello with, down to HMAC. */
  function ConfirmKeyOf(c: Primitives, s: Setup, ss: Bytes, sn: Bytes, th2: Bytes): Bytes32 {
    Hkdf32(c, s.nonce + sn, ss + s.psk, "PQC-IoT-1 server confirm", th2)
  }

  /** The ServerHello in a payload of the right length verifies for this client. */
  predicate Verifies(c: Primitives, s: Setup, hello: Bytes, ss: Bytes, payload: Bytes)
    requires |payload| >= 72
  {
    var n := |payload| - 32;
    var th2 := c.sha256(hello + payload[..32] + payload[32..40] + payload[40..n]);
    payload[n..] == c.hmac(ConfirmKeyOf(c, s, ss, payload[..32], th2), th2)
  }

  lemma AnswerVerifies(c: Primitives, s: Setup, hello: Bytes, ss: Bytes, payload: Bytes)
    requires Params(s.suite).Some? && |payload| == ServerHelloLen(Params(s.suite).value)
    requires var p := Params(s.suite).value; Respond(c, s, hello, ss, Split(p, payload), p.fs).Answer?
    ensures Verifies(c, s, hello, ss, payload)
    ensures var p := Params(s.suite).value; Respond(c, s, hello, ss, Split(p, payload), p.fs).sid == payload[32..40]
  {
    var p := Params(s.suite).value;
    var o := Split(p, payload);
    var n := |payload| - 32;
    assert o.sn == payload[..32] && o.sid == payload[32..40] && o.ek == payload[40..n] && o.mac == payload[n..];
    var th2 := Transcript2(c, hello, o.sn, o.sid, o.ek);
    KeysWrittenOut(c, ss, [], s.psk, s.nonce, o.sn, th2);
  }

  /**
   * The client sends its hello and, only after a ServerHello of type 2 and the
   * suite's length whose MAC verifies, one ClientFinished; nothing else, whatever
   * arrives. An established session has the id of that ServerHello, and the count it
   * reports is the bytes it sent and took, on any stream and not only an honest one.
   */
  lemma ClientSaysOnly(c: Primitives, s: Setup, incoming: Bytes, writable: nat)
    requires Params(s.suite).Some?
    ensures Open(c, s).NoHello? ==> Shake(c, s, incoming, writable) == Failed([])
    ensures Open(c, s).Hello? ==> SaysOnly(c, s, Open(c, s).hello, Open(c, s).ss, incoming, writable)
  {
    if Open(c, s).Hello? {
      var hello, ss := Open(c, s).hello, Open(c, s).ss;
      if |hello| <= MAX_FRAME {
        ShakeHello(c, s, incoming, writable);
        if 3 + |hello| <= writable { AfterHello(c, s, hello, ss, incoming, writable); }
      }
    }
  }

  ghost predicate SaysOnly(c: Primitives, s: Setup, hello: Bytes, ss: Bytes, incoming: Bytes, writable: nat)
    requires Params(s.suite).Some?
  {
    var h, m1, reply := Shake(c, s, incoming, writable), EncodeFrame(Frame(0x01, hello)), ParseFrame(incoming, 4096);
    |h.sent| <= writable && (h.sent <= m1 || Confirms(c, s, hello, ss, h.sent, reply)) &&
    (h.Established? ==>
       Confirms(c, s, hello, ss, h.sent, reply) && h.sid == reply.frame.payload[32..40] && h.rest == reply.rest &&
       h.wire == |h.sent| + |incoming| - |h.rest|)
  }

  /** ClientHello and then (part of) one frame of type 3, on a ServerHello that verifies. */
  ghost predicate Confirms(c: Primitives, s: Setup, hello: Bytes, ss: Bytes, sent: Bytes, reply: Parsed)
    requires Params(s.suite).Some?
  {
    reply.Good? && reply.frame.ftype == 0x02 && |reply.frame.payload| >= 72 &&
    |reply.frame.payload| == ServerHelloLen(Params(s.suite).value) &&
    Verifies(c, s, hello, ss, reply.frame.payload) &&
    exists fin: Bytes :: sent <= EncodeFrame(Frame(0x01, hello)) + EncodeFrame(Frame(0x03, fin))
  }

  lemma AfterHello(c: Primitives, s: Setup, hello: Bytes, ss: Bytes32, incoming: Bytes, writable: nat)
    requires Params(s.suite).Some? && Open(c, s) == Hello(hello, ss) && |hello| <= MAX_FRAME && 3 + |hello| <= writable
    requires Shake(c, s, incoming, writable) == AwaitReply(c, s, hello, ss, incoming, writable)
    ensures SaysOnly(c, s, hello, ss, incoming, writable)
  {
    var reply, p := ParseFrame(incoming, MAX_FRAME), Params(s.suite).value;
    if reply.Good? && reply.frame.ftype == FRAME_SERVER_HELLO && |reply.frame.payload| == ServerHelloLen(p) {
      var payload := reply.frame.payload;
      var a := Respond(c, s, hello, ss, Split(p, payload), p.fs);
      if a.Answer? {
        AnswerVerifies(c, s, hello, ss, payload);
        AfterAnswer(c, s, hello, ss, incoming, writable, a);
      }
    }
  }

  lemma AfterAnswer(c: Primitives, s: Setup, hello: Bytes, ss: Bytes32, incoming: Bytes, writable: nat, a: Answer)
    requires Params(s.suite).Some? && Open(c, s) == Hello(hello, ss) && |hello| <= MAX_FRAME && 3 + |hello| <= writable
    requires Shake(c, s, incoming, writable) == AwaitReply(c, s, hello, ss, incoming, writable)
    requires var r, p := ParseFrame(incoming, MAX_FRAME), Params(s.suite).value;
             r.Good? && r.frame.ftype == FRAME_SERVER_HELLO && |r.frame.payload| == ServerHelloLen(p) &&
             a == Respond(c, s, hello, ss, Split(p, r.frame.payload), p.fs) && a.Answer? &&
             a.sid == r.frame.payload[32..40] && Verifies(c, s, hello, ss, r.frame.payload)
    ensures SaysOnly(c, s, hello, ss, incoming, writable)
  {
    var m1, m3 := EncodeFrame(Frame(0x01, hello)), EncodeFrame(Frame(0x03, a.finished));
    assert Shake(c, s, incoming, writable).sent <= m1 + m3;
  }

  // ---------------------------------------------------------------- the record loop

  /** A frame that has no place in a session whose last accepted number is `last`. */
  predicate Unwelcome(c: Primitives, key: Bytes, sid: Bytes, last: int, f: Frame) {
    if f.ftype == 0x10 then OpenRecord(c, key, sid, last, f.payload).Rejected? else f.ftype != 0x7f
  }

  /** Genuine records come first: they are delivered, then whatever the rest of the stream delivers. */
  lemma {:induction false} DeliverAllThen(c: Primitives, key: Bytes, sid: Bytes, plains: seq<Bytes>, n: nat, x: Bytes)
    requires AeadLengths(c) && AeadOpens(c) && Deliverable(plains) && n <= |plains|
    ensures var d := Deliver(c, key, sid, |plains| - 1, x);
            Deliver(c, key, sid, n - 1, EncodeAll(RecordFrames(c, key, sid, plains)[n..]) + x) ==
            Delivery(plains[n..] + d.plains, d.orderly)
    decreases |plains| - n
  {
    var fs := RecordFrames(c, key, sid, plains);
    if n == |plains| {
      assert EncodeAll(fs[n..]) + x == x;
    } else {
      DeliverAllThen(c, key, sid, plains, n + 1, x);
      DeliverOneThen(c, key, sid, plains, n, x);
      FirstOf(plains, n, Deliver(c, key, sid, |plains| - 1, x).plains);
    }
  }

  lemma FirstOf(plains: seq<Bytes>, n: nat, more: seq<Bytes>)
    requires n < |plains|
    ensures [plains[n]] + (plains[n + 1..] + more) == plains[n..] + more
  {
  }

  lemma DeliverOneThen(c: Primitives, key: Bytes, sid: Bytes, plains: seq<Bytes>, n: nat, x: Bytes)
    requires AeadLengths(c) && AeadOpens(c) && Deliverable(plains) && n < |plains|
    ensures var fs := RecordFrames(c, key, sid, plains);
            var d := Deliver(c, key, sid, n, EncodeAll(fs[n + 1..]) + x);
            Deliver(c, key, sid, n - 1, EncodeAll(fs[n..]) + x) == Delivery([plains[n]] + d.plains, d.orderly)
  {
    var fs := RecordFrames(c, key, sid, plains);
    var head, tail := EncodeFrame(RecordFrame(c, key, sid, n, plains[n])), EncodeAll(fs[n + 1..]);
    assert fs[n..][0] == RecordFrame(c, key, sid, n, plains[n]) && fs[n..][1..] == fs[n + 1..];
    assert plains[n] in plains;
    Regroup(head, tail, x);
    DeliverRecord(c, key, sid, n, plains[n], tail + x);
  }

  /**
   * The first frame out of place ends the session: exactly the records before it are
   * delivered, the session does not end in order, and nothing behind it counts.
   */
  lemma UnwelcomeFrameEnds(c: Primitives, key: Bytes, sid: Bytes, plains: seq<Bytes>, bad: Frame, more: Bytes)
    requires AeadLengths(c) && AeadOpens(c) && Deliverable(plains) && |bad.payload| <= 4096
    requires Unwelcome(c, key, sid, |plains| - 1, bad)
    ensures Deliver(c, key, sid, -1, Stream(c, key, sid, plains) + (EncodeFrame(bad) + more)) == Delivery(plains, false)
  {
    UnwelcomeStops(c, key, sid, |plains| - 1, bad, more);
    DeliverWhole(c, key, sid, plains, EncodeFrame(bad) + more);
    assert plains + [] == plains;
  }

  lemma UnwelcomeStops(c: Primitives, key: Bytes, sid: Bytes, last: int, bad: Frame, more: Bytes)
    requires |bad.payload| <= 4096 && Unwelcome(c, key, sid, last, bad)
    ensures Deliver(c, key, sid, last, EncodeFrame(bad) + more) == Delivery([], false)
  {
    FrameRoundTrip(bad, more, MAX_FRAME);
  }

  lemma DeliverWhole(c: Primitives, key: Bytes, sid: Bytes, plains: seq<Bytes>, x: Bytes)
    requires AeadLengths(c) && AeadOpens(c) && Deliverable(plains)
    ensures var d := Deliver(c, key, sid, |plains| - 1, x);
            Deliver(c, key, sid, -1, Stream(c, key, sid, plains) + x) == Delivery(plains + d.plains, d.orderly)
  {
    DeliverAllThen(c, key, sid, plains, 0, x);
    assert RecordFrames(c, key, sid, plains)[0..] == RecordFrames(c, key, sid, plains) && plains[0..] == plains;
  }

  /** A replayed record is out of place, whichever it is and however genuine. */
  lemma ReplayedRecordEnds(c: Primitives, key: Bytes, sid: Bytes, plains: seq<Bytes>, n: nat, more: Bytes)
    requires AeadLengths(c) && AeadOpens(c) && Deliverable(plains) && n < |plains|
    ensures var again := EncodeFrame(RecordFrame(c, key, sid, n, plains[n]));
            Deliver(c, key, sid, -1, Stream(c, key, sid, plains) + (again + more)) == Delivery(plains, false)
  {
    assert plains[n] in plains;
    RecordSize(c, key, sid, n, plains[n]);
    SealedRecordOpens(c, key, sid, n, plains[n], |plains| - 1);
    UnwelcomeFrameEnds(c, key, sid, plains, RecordFrame(c, key, sid, n, plains[n]), more);
  }

  /**
   * So is any Data payload that is not one of the client's later records byte for
   * byte: one that was tampered with, or belongs to another session or direction.
   */
  lemma ForeignRecordEnds(c: Primitives, log: set<Sealing>, key: Bytes, sid: Bytes, plains: seq<Bytes>,
                          later: seq<Bytes>, payload: Bytes, more: Bytes)
    requires AeadLengths(c) && AeadOpens(c) && Deliverable(plains) && |payload| <= 4096
    requires OpensOnlyLogged(c, log) && OnlySession(c, log, key, sid, plains + later)
    requires forall n: nat :: |plains| <= n < |plains + later| ==>
               payload != SealRecord(c, key, sid, n, (plains + later)[n])
    ensures Deliver(c, key, sid, -1, Stream(c, key, sid, plains) + (EncodeFrame(Frame(0x10, payload)) + more)) ==
            Delivery(plains, false)
  {
    AcceptedIsGenuine(c, log, key, sid, plains + later, |plains| - 1, payload);
    UnwelcomeFrameEnds(c, key, sid, plains, Frame(0x10, payload), more);
  }

  /** Close, or the end of the stream inside a frame, ends the session in order, and nothing behind Close counts. */
  lemma CloseEnds(c: Primitives, key: Bytes, sid: Bytes, plains: seq<Bytes>, payload: Bytes, more: Bytes)
    requires AeadLengths(c) && AeadOpens(c) && Deliverable(plains) && |payload| <= 4096
    ensures Deliver(c, key, sid, -1, Stream(c, key, sid, plains) + (EncodeFrame(Frame(0x7f, payload)) + more)) ==
            Delivery(plains, true)
    ensures ParseFrame(more, 4096).Bad? ==>
              Deliver(c, key, sid, -1, Stream(c, key, sid, plains) + more) == Delivery(plains, true)
  {
    FrameRoundTrip(Frame(0x7f, payload), more, MAX_FRAME);
    DeliverWhole(c, key, sid, plains, EncodeFrame(Frame(0x7f, payload)) + more);
    DeliverWhole(c, key, sid, plains, more);
    assert plains + [] == plains;
  }

  /** Number k - 1 of the accepted ones, or `last` before the first. */
  function Before(last: int, ns: seq<nat>, k: nat): int
    requires k <= |ns|
  {
    if k == 0 then last else ns[k - 1]
  }

  /** A Data frame the receiver accepts after number m. */
  predicate Taken(c: Primitives, key: Bytes, sid: Bytes, m: int, f: Frame, n: nat, plain: Bytes) {
    f.ftype == 0x10 && n > m && OpenRecord(c, key, sid, m, f.payload) == Accepted(n, plain)
  }

  /** The first of these frames are Data frames accepted one after the other, with these numbers and plaintexts. */
  predicate TakenInTurn(c: Primitives, key: Bytes, sid: Bytes, last: int, fs: seq<Frame>, ns: seq<nat>,
                        plains: seq<Bytes>) {
    |ns| == |plains| <= |fs| &&
    forall k :: 0 <= k < |ns| ==> Taken(c, key, sid, Before(last, ns, k), fs[k], ns[k], plains[k])
  }

  /**
   * The record loop on any bytes at all, from the frames they hold: it delivers the
   * longest run of Data frames that are each accepted in turn, and ends in order
   * exactly if what stops it is Close or a frame that cannot be read.
   */
  lemma {:induction false} DeliverExactly(c: Primitives, key: Bytes, sid: Bytes, last: int, incoming: Bytes)
    returns (ns: seq<nat>)
    ensures var d, fs := Deliver(c, key, sid, last, incoming), ParseAll(incoming, 4096);
            TakenInTurn(c, key, sid, last, fs, ns, d.plains) &&
            if |ns| == |fs| then d.orderly
            else (d.orderly <==> fs[|ns|].ftype == 0x7f) &&
                 (fs[|ns|].ftype == 0x7f || Unwelcome(c, key, sid, Before(last, ns, |ns|), fs[|ns|]))
    decreases |incoming|
  {
    ns := [];
    var first := ParseFrame(incoming, MAX_FRAME);
    if first.Good? && first.frame.ftype == FRAME_DATA {
      var r := OpenRecord(c, key, sid, last, first.frame.payload);
      if r.Accepted? {
        var rest := DeliverExactly(c, key, sid, r.n, first.rest);
        ns := [r.n] + rest;
        TakenCons(c, key, sid, last, first.frame, ParseAll(first.rest, MAX_FRAME), r.n, r.plain, rest,
                  Deliver(c, key, sid, r.n, first.rest).plains);
      }
    }
  }

  lemma TakenCons(c: Primitives, key: Bytes, sid: Bytes, last: int, f: Frame, fs: seq<Frame>, n: nat, plain: Bytes,
                  ns: seq<nat>, plains: seq<Bytes>)
    requires Taken(c, key, sid, last, f, n, plain) && TakenInTurn(c, key, sid, n, fs, ns, plains)
    ensures TakenInTurn(c, key, sid, last, [f] + fs, [n] + ns, [plain] + plains)
    ensures Before(last, [n] + ns, |[n] + ns|) == Before(n, ns, |ns|)
  {
    var fs', ns', plains' := [f] + fs, [n] + ns, [plain] + plains;
    forall k | 0 <= k < |ns'| ensures Taken(c, key, sid, Before(last, ns', k), fs'[k], ns'[k], plains'[k]) {
      if k > 0 { Shifted(last, n, f, fs, ns, plain, plains, k); }
    }
  }

  lemma Shifted(last: int, n: nat, f: Frame, fs: seq<Frame>, ns: seq<nat>, plain: Bytes, plains: seq<Bytes>, k: nat)
    requires |ns| == |plains| <= |fs| && 0 < k <= |ns|
    ensures Before(last, [n] + ns, k) == Before(n, ns, k - 1)
    ensures ([f] + fs)[k] == fs[k - 1] && ([n] + ns)[k] == ns[k - 1] && ([plain] + plains)[k] == plains[k - 1]
  {
  }
}
