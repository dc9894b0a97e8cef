/**
 * The TCP stream as seen by one end, and the type-length-payload frames on it.
 */
module Framing {
  import opened Bytes

  const MAX_FRAME: nat := 4096

  datatype Frame = Frame(ftype: byte, payload: Bytes)

  // ---------------------------------------------------------------- specification

  function EncodeFrame(f: Frame): (s: Bytes)
    ensures |s| == 3 + |f.payload|
  {
    [f.ftype] + U16(|f.payload|) + f.payload
  }

  function EncodeAll(fs: seq<Frame>): Bytes {
    if fs == [] then [] else EncodeFrame(fs[0]) + EncodeAll(fs[1..])
  }

  datatype Parsed = Bad | Good(frame: Frame, rest: Bytes)

  /** What a reader that accepts payloads up to `cap` makes of a stream. */
  function ParseFrame(s: Bytes, cap: nat): (r: Parsed)
    ensures r.Good? ==> |r.frame.payload| <= cap && |s| == 3 + |r.frame.payload| + |r.rest|
  {
    if |s| < 3 then Bad
    else
      var len := ReadU16(s[1], s[2]);
      if len > cap || |s| < 3 + len then Bad else Good(Frame(s[0], s[3..3 + len]), s[3 + len..])
  }

  /** Every frame up to the first that is cut off or too long. */
  function ParseAll(s: Bytes, cap: nat): seq<Frame>
    decreases |s|
  {
    match ParseFrame(s, cap)
    case Bad => []
    case Good(f, rest) => [f] + ParseAll(rest, cap)
  }

  lemma Regroup(a: Bytes, b: Bytes, c: Bytes)
    ensures a + (b + c) == a + b + c
  {
  }

  lemma {:induction false} EncodeAllConcat(fs: seq<Frame>, gs: seq<Frame>)
    ensures EncodeAll(fs + gs) == EncodeAll(fs) + EncodeAll(gs)
  {
    if fs == [] { assert fs + gs == gs; }
    else {
      EncodeAllConcat(fs[1..], gs);
      assert (fs + gs)[0] == fs[0] && (fs + gs)[1..] == fs[1..] + gs;
      Regroup(EncodeFrame(fs[0]), EncodeAll(fs[1..]), EncodeAll(gs));
    }
  }

  lemma EncodeOne(f: Frame)
    ensures EncodeAll([f]) == EncodeFrame(f)
  {
    assert EncodeAll([f]) == EncodeFrame(f) + EncodeAll([f][1..]);
  }

  /** The first n bytes, or all there are: what a peer takes that accepts n more bytes. */
  function Cut(s: Bytes, n: nat): Bytes { if |s| <= n then s else s[..n] }

  predicate Fits(fs: seq<Frame>, cap: nat) { forall f <- fs :: |f.payload| <= cap }

  lemma FrameRoundTrip(f: Frame, rest: Bytes, cap: nat)
    requires |f.payload| <= cap && |f.payload| < 0x1_0000
    ensures ParseFrame(EncodeFrame(f) + rest, cap) == Good(f, rest)
  {
    var s := EncodeFrame(f) + rest;
    assert s[1] == |f.payload| / 256 % 256 && s[2] == |f.payload| % 256;
    assert s[3..3 + |f.payload|] == f.payload;
    assert s[3 + |f.payload|..] == rest;
  }

  /** A frame on the wire: type, length most significant byte first, payload. */
  lemma FrameLayout(f: Frame)
    requires |f.payload| < 0x1_0000
    ensures var s := EncodeFrame(f);
            |s| == 3 + |f.payload| && s[0] == f.ftype && 256 * s[1] as int + s[2] as int == |f.payload| &&
            s[3..] == f.payload
  {
    var s := EncodeFrame(f);
    assert s[1] == |f.payload| / 256 % 256 && s[2] == |f.payload| % 256;
  }

  /** A frame can be read exactly if its header announces no more than the reader takes and all of it is there. */
  lemma ParseExactly(s: Bytes, cap: nat)
    ensures ParseFrame(s, cap).Good? <==>
            |s| >= 3 && 256 * s[1] as int + s[2] as int <= cap && |s| >= 3 + 256 * s[1] as int + s[2] as int
    ensures ParseFrame(s, cap).Good? ==>
              var n := 256 * s[1] as int + s[2] as int;
              ParseFrame(s, cap) == Good(Frame(s[0], s[3..3 + n]), s[3 + n..])
    ensures MAX_FRAME == 4096
  {
  }

  /** Reading any concatenation of written frames gives back exactly those frames. */
  lemma {:induction false} StreamRoundTrip(fs: seq<Frame>, cap: nat)
    requires Fits(fs, cap) && cap < 0x1_0000
    ensures ParseAll(EncodeAll(fs), cap) == fs
  {
    if fs != [] {
      FrameRoundTrip(fs[0], EncodeAll(fs[1..]), cap);
      StreamRoundTrip(fs[1..], cap);
    }
  }

  /** A cut stream parses to a prefix of the frames: cutting loses frames from the end, nothing else. */
  lemma {:induction false} CutStreamIsPrefix(fs: seq<Frame>, cut: nat, cap: nat)
    requires Fits(fs, cap) && cap < 0x1_0000 && cut <= |EncodeAll(fs)|
    ensures ParseAll(EncodeAll(fs)[..cut], cap) <= fs
  {
    if fs != [] {
      var s := EncodeAll(fs)[..cut];
      var head := EncodeFrame(fs[0]);
      if cut >= |head| {
        assert s == head + EncodeAll(fs[1..])[..cut - |head|];
        FrameRoundTrip(fs[0], EncodeAll(fs[1..])[..cut - |head|], cap);
        CutStreamIsPrefix(fs[1..], cut - |head|, cap);
      } else {
        CutFrameIsBad(fs[0], EncodeAll(fs[1..]), cut, cap);
      }
    }
  }

  lemma CutFrameIsBad(f: Frame, rest: Bytes, cut: nat, cap: nat)
    requires |f.payload| < 0x1_0000 && cut < |EncodeFrame(f)|
    ensures ParseFrame((EncodeFrame(f) + rest)[..cut], cap) == Bad
  {
    var s := (EncodeFrame(f) + rest)[..cut];
    if cut >= 3 { assert s[1] == |f.payload| / 256 % 256 && s[2] == |f.payload| % 256; }
  }

  /** A reader with less room sees the same frames as long as they fit it. */
  lemma SmallReaderAgrees(s: Bytes, cap: nat, small: nat)
    requires small <= cap
    ensures ParseFrame(s, small).Good? <==> ParseFrame(s, cap).Good? && |ParseFrame(s, cap).frame.payload| <= small
    ensures ParseFrame(s, small).Good? ==> ParseFrame(s, small) == ParseFrame(s, cap)
  {
  }

  // ---------------------------------------------------------------- the socket

  /**
   * `incoming` is what the peer will have sent before it closes, `writable` how
   * many more bytes it takes before writes fail. How much one call moves is
   * arbitrary: every property below holds for every chunking.
   */
  class Socket {
    var incoming: Bytes
    var outgoing: Bytes
    var writable: nat

    constructor (incoming: Bytes, writable: nat)
      ensures this.incoming == incoming && this.outgoing == [] && this.writable == writable
    {
      this.incoming, this.outgoing, this.writable := incoming, [], writable;
    }

    method Recv(n: nat) returns (chunk: Bytes)
      requires n > 0
      modifies this`incoming
      ensures chunk + incoming == old(incoming) && |chunk| <= n
      ensures chunk == [] <==> old(incoming) == []
    {
      if incoming == [] { return []; }
      var k: nat :| 1 <= k <= n && k <= |incoming|;
      chunk := incoming[..k];
      incoming := incoming[k..];
    }

    /** Returns how many bytes were taken; 0 stands for an error. */
    method Send(data: Bytes) returns (k: nat)
      requires data != []
      modifies this`outgoing, this`writable
      ensures k <= |data| && outgoing == old(outgoing) + data[..k] && writable == old(writable) - k
      ensures k == 0 <==> old(writable) == 0
    {
      if writable == 0 { return 0; }
      k :| 1 <= k <= |data| && k <= writable;
      outgoing := outgoing + data[..k];
      writable := writable - k;
    }

    /** What has gone out once `data` was written as far as the peer takes it. */
    twostate predicate Wrote(data: Bytes, ok: bool)
      reads this
    {
      ok == (|data| <= old(writable)) &&
      outgoing == old(outgoing) + (if ok then data else data[..old(writable)]) &&
      writable == (if ok then old(writable) - |data| else 0)
    }

    /** Python's sock.sendall. */
    method SendAll(data: Bytes) returns (ok: bool)
      modifies this`outgoing, this`writable
      ensures Wrote(data, ok)
    {
      var sent := 0;
      while sent < |data|
        invariant sent <= |data| && sent <= old(writable)
        invariant outgoing == old(outgoing) + data[..sent] && writable == old(writable) - sent
      {
        var k := Send(data[sent..]);
        if k == 0 { return false; }
        assert data[..sent] + data[sent..][..k] == data[..sent + k];
        sent := sent + k;
      }
      assert data[..sent] == data;
      ok := true;
    }

    /** read_exactly: the next n bytes whatever the chunks, or None when the peer closes first. */
    method ReadExactly(n: nat) returns (r: Option<Bytes>)
      modifies this`incoming
      ensures r.Some? <==> n <= |old(incoming)|
      ensures r.Some? ==> r.value == old(incoming)[..n] && incoming == old(incoming)[n..]
      ensures r.None? ==> incoming == []
    {
      var buf := [];
      while |buf| < n
        invariant |buf| <= n && buf + incoming == old(incoming)
        decreases n - |buf|
      {
        var chunk := Recv(n - |buf|);
        if chunk == [] { return None; }
        ghost var was := buf;
        buf := buf + chunk;
        assert was + (chunk + incoming) == buf + incoming;
      }
      assert old(incoming)[..n] == buf && old(incoming)[n..] == incoming;
      return Some(buf);
    }

    /** read_frame of the Python side. */
    method ReadFrame() returns (r: Option<Frame>)
      modifies this`incoming
      ensures match ParseFrame(old(incoming), MAX_FRAME)
              case Good(f, rest) => r == Some(f) && incoming == rest
              case Bad => r == None
    {
      var s := incoming;
      var head := ReadExactly(3);
      if head.None? { return None; }
      var len := ReadU16(head.value[1], head.value[2]);
      if len > MAX_FRAME { return None; }
      var payload := ReadExactly(len);
      if payload.None? { return None; }
      assert s[3..][..len] == s[3..3 + len] && s[3..][len..] == s[3 + len..];
      return Some(Frame(head.value[0], payload.value));
    }

    /** write_frame of the Python side: a payload that is too long is refused before anything is sent. */
    method WriteFrame(f: Frame) returns (ok: bool)
      modifies this`outgoing, this`writable
      ensures |f.payload| > MAX_FRAME ==> !ok && outgoing == old(outgoing) && writable == old(writable)
      ensures |f.payload| <= MAX_FRAME ==> Wrote(EncodeFrame(f), ok)
    {
      if |f.payload| > MAX_FRAME { return false; }
      ok := SendAll(EncodeFrame(f));
    }

    // -------------------------------------------------------------- the C side

    /** send_all over part of a buffer. */
    method SendBuffer(buf: array<byte>, len: nat) returns (ok: bool)
      requires len <= buf.Length
      modifies this`outgoing, this`writable
      ensures Wrote(buf[..len], ok)
    {
      var sent := 0;
      while sent < len
        invariant sent <= len && sent <= old(writable)
        invariant outgoing == old(outgoing) + buf[..sent] && writable == old(writable) - sent
      {
        var k := Send(buf[sent..len]);
        if k == 0 { return false; }
        assert buf[..sent] + buf[sent..len][..k] == buf[..sent + k];
        sent := sent + k;
      }
      ok := true;
    }

    /** recv_all into a buffer. */
    method RecvInto(buf: array<byte>, len: nat) returns (ok: bool)
      requires len <= buf.Length
      modifies this`incoming, buf
      ensures ok == (len <= |old(incoming)|)
      ensures ok ==>
                buf[..len] == old(incoming)[..len] && buf[len..] == old(buf[len..]) &&
                incoming == old(incoming)[len..]
    {
      var got := 0;
      while got < len
        invariant got <= len && buf[..got] + incoming == old(incoming) && buf[len..] == old(buf[len..])
        decreases len - got
      {
        ghost var before, left := buf[..got], incoming;
        var chunk := Recv(len - got);
        if chunk == [] { return false; }
        CopyInto(buf, got, chunk);
        assert buf[..got + |chunk|] == before + chunk;
        assert before + (chunk + incoming) == buf[..got + |chunk|] + incoming;
        got := got + |chunk|;
      }
      assert old(incoming)[..len] == buf[..len] && old(incoming)[len..] == incoming;
      ok := true;
    }

    /** write_frame of the firmware: the header, then the payload, as two sends. */
    method WriteFrameFrom(ftype: byte, buf: array<byte>, len: nat) returns (ok: bool)
      requires len <= buf.Length && len < 0x1_0000
      modifies this`outgoing, this`writable
      ensures Wrote(EncodeFrame(Frame(ftype, buf[..len])), ok)
    {
      var head := new byte[3][ftype, len / 256, len % 256];
      assert head[..3] == [ftype] + U16(len);
      ok := SendBuffer(head, 3);
      if ok { ok := SendBuffer(buf, len); }
    }

    /** read_frame of the firmware: into a buffer of fixed capacity. */
    method ReadFrameInto(buf: array<byte>) returns (ok: bool, ftype: byte, len: nat)
      modifies this`incoming, buf
      ensures ok ==> len <= buf.Length
      ensures match ParseFrame(old(incoming), buf.Length)
              case Good(f, rest) => ok && Frame(ftype, buf[..len]) == f && incoming == rest
              case Bad => !ok
    {
      ghost var s := incoming;
      var head := new byte[3];
      ok := RecvInto(head, 3);
      ftype, len := 0, 0;
      if !ok { return; }
      assert head[..3] == s[..3];
      ftype, len := head[0], ReadU16(head[1], head[2]);
      if len > buf.Length { return false, ftype, len; }
      ok := RecvInto(buf, len);
      assert ok ==> s[3..][..len] == s[3..3 + len] && s[3..][len..] == s[3 + len..];
    }
  }
}
