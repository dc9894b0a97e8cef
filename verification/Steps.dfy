/**
 * Every step of the protocol keeps the invariant and only moves runs forward.
 */
module Steps {
  import opened Terms
  import opened Protocol
  import opened Invariants
  import opened Preservation
  import opened Secrecy

  // ---------------------------------------------------------------- client

  lemma KnownClientHello(s: State, v: Session)
    requires v.cn.ClientNonce? && v.ct.Encap? && HelloMac(v) in s.log
    ensures Known(s, ClientHello(v))
  {
    KnownPair(s, v.cn, v.ct);
    KnownPair(s, KeyId(Ek(StaticSk)), Pair(v.cn, v.ct));
    var tail := Pair(KeyId(Ek(StaticSk)), Pair(v.cn, v.ct));
    KnownPair(s, Dev(v.dev), tail);
    KnownPair(s, Byte(v.suite), Pair(Dev(v.dev), tail));
    KnownPair(s, Byte(VERSION), Pair(Byte(v.suite), Pair(Dev(v.dev), tail)));
    KnownPair(s, HelloBody(v), HelloMac(v));
  }

  lemma ClientStartKeeps(s: State, dev: nat, suite: nat)
    requires Inv(s) && IsSuite(suite)
    ensures var s' := ClientStart(s, dev, suite); Inv(s') && Grows(s, s')
  {
    var s' := ClientStart(s, dev, suite);
    var i := |s.clients|;
    var c := FreshClient(i, dev, suite);
    RunAppend(s, s');
    KnownClientHello(s', c.v);
    EncsGrow(s, s');
    Assemble(s, s', {ClientHello(c.v)}, HelloMac(c.v), ByHello(i), i, |s.servers|);
  }

  lemma ClientStopKeeps(s: State, i: nat)
    requires Inv(s) && i < |s.clients|
    ensures var s' := ClientStop(s, i); Inv(s') && Grows(s, s')
  {
    var s' := ClientStop(s, i);
    assert ClientOk(s, i);
    ClientUpdate(s, s', i);
    ClientOkGrows(s, s', i);
    EncsGrow(s, s');
    Assemble(s, s', {}, Empty, ByHello(0), i, |s.servers|);
  }

  lemma KnownServerHello(s: State, sn: Term, sid: Term, ek: Term, mac: Term)
    requires KnowOk(s) && Pair(sn, Pair(sid, Pair(ek, mac))) in s.know
    ensures Known(s, mac)
  {
    assert Known(s, Pair(sn, Pair(sid, Pair(ek, mac))));
    assert Known(s, Pair(sid, Pair(ek, mac)));
    assert Known(s, Pair(ek, mac));
  }

  /** The server authentication step: accepting means a matching server run, or both defences lost. */
  lemma AcceptanceProvesServer(s: State, i: nat, sn: Term, sid: Term, ek: Term, mac: Term)
    requires Inv(s) && i < |s.clients| && Pair(sn, Pair(sid, Pair(ek, mac))) in s.know
    requires Acceptable(Offered(s.clients[i].v, sn, sid, ek), mac)
    ensures var v := Offered(s.clients[i].v, sn, sid, ek); HoldsBoth(s, v) || ServerMatch(s, v)
  {
    var v := Offered(s.clients[i].v, sn, sid, ek);
    KnownServerHello(s, sn, sid, ek, mac);
    if !HoldsBoth(s, v) { ServerMacProvesServer(s, i, v); }
  }

  lemma AcceptedRunOk(s: State, s': State, i: nat, v: Session, exposed: bool)
    requires i < |s.clients| && ClientOk(s, i) && s.clients[i].phase == Waiting && ServerHello(v) in s.know
    requires Grows(s, s') && s'.clients[i] == AcceptedRun(i, s.clients[i], v, exposed)
    requires Finished(Answered(i, v)) in s'.know
    requires v == Offered(s.clients[i].v, v.sn, v.sid, v.ek)
    requires if IsFs(v.suite) then v.ek.Ek? else v.ek == Empty
    requires if exposed then HoldsBoth(s, v) else ServerMatch(s, v)
    ensures ClientOk(s', i)
  {
    assert SameHello(v, Answered(i, v));
    if exposed { assert HoldsBoth(s', v); } else { ServerMatchGrows(s, s', v); }
  }

  lemma ClientReceiveKeeps(s: State, i: nat, sn: Term, sid: Term, ek: Term, mac: Term)
    requires Inv(s) && Enabled(s, AClientReceive(i, sn, sid, ek, mac))
    ensures var s' := ClientReceive(s, i, sn, sid, ek, mac); Inv(s') && Grows(s, s')
  {
    var v := Offered(s.clients[i].v, sn, sid, ek);
    var s' := ClientReceive(s, i, sn, sid, ek, mac);
    if !Acceptable(v, mac) { ClientStopKeeps(s, i); }
    else {
      AcceptanceProvesServer(s, i, sn, sid, ek, mac);
      AcceptanceKeeps(s, s', i, v, HoldsBoth(s, v));
    }
  }

  lemma AcceptanceGrows(s: State, s': State, i: nat, v: Session, exposed: bool)
    requires i < |s.clients| && ClientOk(s, i) && s.clients[i].phase == Waiting && ServerHello(v) in s.know
    requires v == Offered(s.clients[i].v, v.sn, v.sid, v.ek)
    requires if IsFs(v.suite) then v.ek.Ek? else v.ek == Empty
    requires if exposed then HoldsBoth(s, v) else ServerMatch(s, v)
    requires SetsGrow(s, s') && s'.servers == s.servers && Finished(Answered(i, v)) in s'.know
    requires s'.clients == s.clients[i := AcceptedRun(i, s.clients[i], v, exposed)]
    ensures Grows(s, s') && OnlyAt(s.clients, s'.clients, i) && OnlyAt(s.servers, s'.servers, |s.servers|)
    ensures ClientOk(s', i)
    ensures var w := Answered(i, v); Known(s', w.ctEph)
  {
    ClientUpdate(s, s', i);
    AcceptedRunOk(s, s', i, v, exposed);
  }

  lemma AcceptanceKeeps(s: State, s': State, i: nat, v: Session, exposed: bool)
    requires Inv(s) && i < |s.clients| && s.clients[i].phase == Waiting && ServerHello(v) in s.know
    requires v == Offered(s.clients[i].v, v.sn, v.sid, v.ek)
    requires if IsFs(v.suite) then v.ek.Ek? else v.ek == Empty
    requires if exposed then HoldsBoth(s, v) else ServerMatch(s, v)
    requires var w := Answered(i, v);
             s' == s.(clients := s.clients[i := AcceptedRun(i, s.clients[i], v, exposed)],
                      know := s.know + {Finished(w)}, log := s.log[ClientMac(w) := ByFinished(i)])
    ensures Inv(s') && Grows(s, s')
  {
    var w := Answered(i, v);
    assert ClientOk(s, i);
    AcceptanceGrows(s, s', i, v, exposed);
    KnownMessage(s', w.ctEph, ClientMac(w));
    EncsGrow(s, s');
    SentKeeps(s, s', i, Finished(w), ClientMac(w), ByFinished(i));
  }

  /** A client step that sends one message and logs one term. */
  lemma SentKeeps(s: State, s': State, i: nat, message: Term, logged: Term, who: Sender)
    requires Inv(s) && Grows(s, s') && s'.servers == s.servers && s'.leaked == s.leaked
    requires i < |s'.clients| && OnlyAt(s.clients, s'.clients, i) && ClientOk(s', i)
    requires s'.know == s.know + {message} && Known(s', message)
    requires s'.log == s.log[logged := who] && SentBy(s', logged, who)
    requires EncsOk(s')
    ensures Inv(s')
  {
    Assemble(s, s', {message}, logged, who, i, |s.servers|);
  }

  lemma KnownMessage(s: State, head: Term, last: Term)
    requires Known(s, head) && last in s.log && (last.Mac? || last.Seal?)
    ensures Known(s, Pair(head, last))
  {
    assert last in s.log.Keys;
    KnownPair(s, head, last);
  }

  lemma SentRunOk(s: State, s': State, i: nat, len: nat, wrote: bool)
    requires i < |s.clients| && ClientOk(s, i) && s.clients[i].phase == Running
    requires Grows(s, s') && s'.clients[i] == SentRun(s.clients[i], len, wrote)
    ensures ClientOk(s', i)
  {
    if !s.clients[i].exposed { ServerMatchGrows(s, s', s.clients[i].v); }
  }

  lemma EncryptionsBelow(s: State, i: nat)
    requires EncsOk(s) && ClientsOk(s) && i < |s.clients| && s.clients[i].accepted
    ensures forall e <- s.encs :: e.key == C2sKey(s.clients[i].v) ==> e.n < |s.clients[i].sealed|
  {
    forall e <- s.encs | e.key == C2sKey(s.clients[i].v) ensures e.n < |s.clients[i].sealed| {
      assert EncOk(s, e);
      ClientViewWellFormed(s, i);
      ClientViewWellFormed(s, e.i);
      DataKeyInjective(s.clients[e.i].v, s.clients[i].v, C2s);
    }
  }

  /** GCM nonces: the new encryption repeats none, for its key belongs to this run alone. */
  lemma ClientSendNonces(s: State, s': State, i: nat, key: Term, n: nat)
    requires EncsOk(s) && Grows(s, s') && i < |s.clients| && s.clients[i].accepted
    requires forall e <- s.encs :: e.key == key ==> e.n < n
    requires s'.encs == s.encs + [Encryption(key, n, i)] && EncOk(s', Encryption(key, n, i))
    ensures EncsOk(s')
  {
    forall e <- s'.encs ensures EncOk(s', e) {
      if e in s.encs {
        assert EncOk(s, e);
        assert ClientGrows(s.clients[e.i], s'.clients[e.i]);
      }
    }
    forall a, b | 0 <= a < b < |s'.encs| ensures s'.encs[a].key != s'.encs[b].key || s'.encs[a].n != s'.encs[b].n {
      assert s'.encs[a] in s.encs;
    }
  }

  lemma SendGrows(s: State, s': State, i: nat, c: ClientRun, len: nat, wrote: bool, key: Term)
    requires EncsOk(s) && ClientsOk(s) && i < |s.clients| && c == s.clients[i] && c.phase == Running &&
             key == C2sKey(c.v)
    requires SetsGrow(s, s') && s'.servers == s.servers && s'.clients == s.clients[i := SentRun(c, len, wrote)]
    requires s'.encs == s.encs + [Encryption(key, c.sendSeq, i)]
    ensures Grows(s, s') && OnlyAt(s.clients, s'.clients, i) && ClientOk(s', i) && EncsOk(s')
  {
    assert ClientOk(s, i);
    ClientUpdate(s, s', i);
    SentRunOk(s, s', i, len, wrote);
    EncryptionsBelow(s, i);
    ClientSendNonces(s, s', i, key, c.sendSeq);
  }

  lemma ClientSendKeeps(s: State, i: nat, len: nat, wrote: bool)
    requires Inv(s) && Enabled(s, AClientSend(i, len, wrote))
    ensures var s' := ClientSend(s, i, len, wrote); Inv(s') && Grows(s, s')
  {
    var s' := ClientSend(s, i, len, wrote);
    var c := s.clients[i];
    assert ClientOk(s, i);
    SendGrows(s, s', i, c, len, wrote, C2sKey(c.v));
    var body := SealedWith(c.v, c.sendSeq, len, Payload(i, c.sendSeq));
    KnownMessage(s', Len(len), body);
    KnownPair(s', Seq(c.sendSeq), Pair(Len(len), body));
    SentKeeps(s, s', i, Record(c.v, c.sendSeq, len, Payload(i, c.sendSeq)), body, ByRecord(i, c.sendSeq));
  }

  // ---------------------------------------------------------------- server

  lemma KnownServerReply(s: State, v: Session)
    requires v.sn.ServerNonce? && v.sid.SessionId? && (v.ek.Ek? || v.ek.Empty?) && ServerMac(v) in s.log
    ensures Known(s, ServerHello(v))
  {
    KnownPair(s, v.ek, ServerMac(v));
    KnownPair(s, v.sid, Pair(v.ek, ServerMac(v)));
    KnownPair(s, v.sn, Pair(v.sid, Pair(v.ek, ServerMac(v))));
  }

  lemma ServerReceiveKeeps(s: State, suite: nat, dev: nat, cn: Term, ct: Term)
    requires Inv(s) && Enabled(s, AServerReceive(dev, suite, cn, ct))
    ensures var s' := ServerReceive(s, suite, dev, cn, ct); Inv(s') && Grows(s, s')
  {
    var s' := ServerReceive(s, suite, dev, cn, ct);
    var j := |s.servers|;
    var r := FreshServer(j, suite, dev, cn, ct);
    RunAppend(s, s');
    KnownServerReply(s', r.v);
    EncsGrow(s, s');
    Assemble(s, s', {ServerHello(r.v)}, ServerMac(r.v), ByServer(j), |s.clients|, j);
  }

  /** A step that changes one server run and nothing else. */
  lemma ServerOnly(s: State, s': State, j: nat)
    requires Inv(s) && Grows(s, s') && j < |s.servers| && |s'.servers| == |s.servers|
    requires s' == s.(servers := s.servers[j := s'.servers[j]]) && ServerOk(s', j) && GotOk(s', j)
    ensures Inv(s')
  {
    EncsGrow(s, s');
    Assemble(s, s', {}, Empty, ByHello(0), |s.clients|, j);
  }

  lemma ServerStopKeeps(s: State, j: nat)
    requires Inv(s) && j < |s.servers|
    ensures var s' := ServerStop(s, j); Inv(s') && Grows(s, s')
  {
    var s' := ServerStop(s, j);
    assert ServerOk(s, j);
    ServerUpdate(s, s', j);
    ServerOkGrows(s, s', j);
    GotOkGrows(s, s', j);
    ServerOnly(s, s', j);
  }

  lemma KnownFinished(s: State, ctEph: Term, mac: Term)
    requires KnowOk(s) && Pair(ctEph, mac) in s.know
    ensures Known(s, mac)
  {
    assert Known(s, Pair(ctEph, mac));
  }

  lemma CompletedRunOk(s: State, s': State, j: nat, ctEph: Term, clean: bool)
    requires j < |s.servers| && ServerOk(s, j) && s.servers[j].phase == Awaiting && GotOk(s, j)
    requires Grows(s, s') && s'.servers[j] == CompletedRun(j, s.servers[j], ctEph, clean)
    requires IsFs(s.servers[j].v.suite) || ctEph == Empty
    requires var w := Concluded(j, s.servers[j].v, ctEph);
             clean ==> ClientMatch(s, w) && !s.clients[w.cn.run].exposed
    ensures ServerOk(s', j) && GotOk(s', j)
  {
    var w := Concluded(j, s.servers[j].v, ctEph);
    if clean { ClientMatchGrows(s, s', w); }
    GotOkGrows(s, s', j);
  }

  /** The client authentication step. */
  lemma FinishedProvesClient(s: State, j: nat, ctEph: Term, mac: Term)
    requires Inv(s) && j < |s.servers| && s.servers[j].phase == Awaiting && Pair(ctEph, mac) in s.know
    requires mac == ClientMac(Concluded(j, s.servers[j].v, ctEph))
    requires Psk(s.servers[j].v.dev) !in s.leaked
    ensures var w := Concluded(j, s.servers[j].v, ctEph); ClientMatch(s, w) && !s.clients[w.cn.run].exposed
  {
    assert ServerOk(s, j);
    KnownFinished(s, ctEph, mac);
    ClientMacProvesClient(s, Concluded(j, s.servers[j].v, ctEph));
  }

  lemma ServerFinishKeeps(s: State, j: nat, ctEph: Term, mac: Term)
    requires Inv(s) && Enabled(s, AServerFinish(j, ctEph, mac))
    ensures var s' := ServerFinish(s, j, ctEph, mac); Inv(s') && Grows(s, s')
    ensures var r := ServerFinish(s, j, ctEph, mac).servers[j]; r.phase != Awaiting && EphSk(j) !in ServerSecrets(j, r)
  {
    var r := s.servers[j];
    var s' := ServerFinish(s, j, ctEph, mac);
    if mac != ClientMac(Concluded(j, r.v, ctEph)) || (!IsFs(r.v.suite) && ctEph != Empty) { ServerStopKeeps(s, j); }
    else {
      if Psk(r.v.dev) !in s.leaked { FinishedProvesClient(s, j, ctEph, mac); }
      CompletionKeeps(s, s', j, ctEph, Psk(r.v.dev) !in s.leaked);
      CompletedShape(s', j);
      OpenHoldsNoEphemeral(j, s'.servers[j]);
    }
  }

  lemma CompletedShape(s: State, j: nat)
    requires ServersOk(s) && j < |s.servers| && s.servers[j].completed
    ensures var v := s.servers[j].v; v == Concluded(j, v, v.ctEph) && v.ss == Decap(StaticSk, v.ct)
  {
    assert ServerOk(s, j);
  }

  lemma OpenHoldsNoEphemeral(j: nat, r: ServerRun)
    requires r.phase == Open && r.completed && r.v == Concluded(j, r.v, r.v.ctEph) && r.v.ss == Decap(StaticSk, r.v.ct)
    ensures EphSk(j) !in ServerSecrets(j, r)
  {
    ServerKeyShapes(r.v);
  }

  lemma CompletionKeeps(s: State, s': State, j: nat, ctEph: Term, clean: bool)
    requires Inv(s) && j < |s.servers| && s.servers[j].phase == Awaiting
    requires IsFs(s.servers[j].v.suite) || ctEph == Empty
    requires var w := Concluded(j, s.servers[j].v, ctEph);
             clean ==> ClientMatch(s, w) && !s.clients[w.cn.run].exposed
    requires s' == s.(servers := s.servers[j := CompletedRun(j, s.servers[j], ctEph, clean)])
    ensures Inv(s') && Grows(s, s')
  {
    assert ServerOk(s, j) && GotOk(s, j);
    CompletionGrows(s, s', j, ctEph, clean);
    CompletedRunOk(s, s', j, ctEph, clean);
    ServerOnly(s, s', j);
  }

  lemma CompletionGrows(s: State, s': State, j: nat, ctEph: Term, clean: bool)
    requires j < |s.servers| && s.servers[j].phase == Awaiting && !s.servers[j].completed
    requires s' == s.(servers := s.servers[j := CompletedRun(j, s.servers[j], ctEph, clean)])
    ensures Grows(s, s')
  {
    ServerUpdate(s, s', j);
  }

  lemma ReadRunOk(s: State, s': State, j: nat, n: nat, plain: Term)
    requires j < |s.servers| && ServerOk(s, j) && s.servers[j].phase == Open
    requires n > s.servers[j].last
    requires Grows(s, s') && s'.servers[j] == ReadRun(s.servers[j], n, plain)
    ensures ServerOk(s', j)
  {
    var r := s.servers[j];
    assert forall a :: 0 <= a < |r.got| ==> r.got[a].0 <= r.last;
    if r.clean { ClientMatchGrows(s, s', r.v); }
  }

  /** The record step: an accepted plaintext is one the matching client sealed. */
  lemma ReadGotOk(s: State, s': State, j: nat, n: nat, plain: Term)
    requires j < |s.servers| && GotOk(s, j) && Grows(s, s')
    requires s'.clients == s.clients && s'.log == s.log && s'.leaked == s.leaked
    requires s'.servers[j] == ReadRun(s.servers[j], n, plain)
    requires Known(s, C2sKey(s.servers[j].v)) || Delivered(s, s.servers[j].v, (n, plain))
    ensures GotOk(s', j)
  {
    var v := s.servers[j].v;
    if !Known(s, C2sKey(v)) {
      forall e <- s'.servers[j].got ensures Delivered(s', v, e) {
        if e in s.servers[j].got { assert Delivered(s, v, e); }
      }
    }
  }

  lemma KnownBody(s: State, n: nat, len: nat, body: Term)
    requires KnowOk(s) && Pair(Seq(n), Pair(Len(len), body)) in s.know
    ensures Known(s, body)
  {
    assert Known(s, Pair(Seq(n), Pair(Len(len), body)));
    assert Known(s, Pair(Len(len), body));
  }

  lemma ServerViewWellFormed(s: State, j: nat)
    requires ServersOk(s) && j < |s.servers|
    ensures WellFormed(s.servers[j].v)
  {
    assert ServerOk(s, j);
  }

  lemma OpeningProvesClient(s: State, j: nat, n: nat, len: nat, body: Term)
    requires Inv(s) && j < |s.servers| && Pair(Seq(n), Pair(Len(len), body)) in s.know
    requires Opens(s.servers[j].v, n, len, body)
    ensures Known(s, C2sKey(s.servers[j].v)) || Delivered(s, s.servers[j].v, (n, body.plain))
  {
    ServerViewWellFormed(s, j);
    KnownBody(s, n, len, body);
    if !Known(s, C2sKey(s.servers[j].v)) { RecordProvesClient(s, s.servers[j].v, n, len, body.plain); }
  }

  lemma ServerReadKeeps(s: State, j: nat, n: nat, len: nat, body: Term)
    requires Inv(s) && Enabled(s, AServerRead(j, n, len, body))
    ensures var s' := ServerRead(s, j, n, len, body); Inv(s') && Grows(s, s')
  {
    var s' := ServerRead(s, j, n, len, body);
    if n <= s.servers[j].last || !Opens(s.servers[j].v, n, len, body) { ServerStopKeeps(s, j); }
    else {
      OpeningProvesClient(s, j, n, len, body);
      ReadKeeps(s, s', j, n, body.plain);
    }
  }

  lemma ReadKeeps(s: State, s': State, j: nat, n: nat, plain: Term)
    requires Inv(s) && j < |s.servers| && s.servers[j].phase == Open && n > s.servers[j].last
    requires Known(s, C2sKey(s.servers[j].v)) || Delivered(s, s.servers[j].v, (n, plain))
    requires s' == s.(servers := s.servers[j := ReadRun(s.servers[j], n, plain)])
    ensures Inv(s') && Grows(s, s')
  {
    ReadGrows(s, s', j, n, plain);
    assert ServerOk(s, j) && GotOk(s, j);
    ReadRunOk(s, s', j, n, plain);
    ReadGotOk(s, s', j, n, plain);
    ServerOnly(s, s', j);
  }

  lemma ReadGrows(s: State, s': State, j: nat, n: nat, plain: Term)
    requires j < |s.servers| && s.servers[j].phase == Open
    requires s' == s.(servers := s.servers[j := ReadRun(s.servers[j], n, plain)])
    ensures Grows(s, s')
  {
    ServerUpdate(s, s', j);
  }

  // ---------------------------------------------------------------- adversary

  /** Steps that only add knowledge and losses. */
  lemma LossKeeps(s: State, s': State, ts: set<Term>, lost: set<Term>)
    requires Inv(s) && Grows(s, s') && s'.know == s.know + ts && lost <= ts
    requires s'.log == s.log && s'.clients == s.clients && s'.servers == s.servers && s'.encs == s.encs
    requires s'.leaked.Keys == s.leaked.Keys + lost
    requires forall t <- s'.leaked :: if t in lost then LostBy(s', t, s'.leaked[t]) else s'.leaked[t] == s.leaked[t]
    requires forall t <- ts :: Known(s', t)
    ensures Inv(s')
  {
    KnowStep(s, s', ts);
    LogStep(s, s', Empty, ByHello(0));
    LeakStep(s, s', lost);
    ClientsStep(s, s', |s.clients|);
    ServersStep(s, s', |s.servers|);
    GotStep(s, s', |s.servers|);
    EncsGrow(s, s');
  }

  lemma RegisterKeeps(s: State, dev: nat)
    requires Inv(s)
    ensures var s' := s.(devices := s.devices + {dev}); Inv(s') && Grows(s, s')
  {
    LossKeeps(s, s.(devices := s.devices + {dev}), {}, {});
  }

  lemma LoseTermKeeps(s: State, t: Term, how: Leak)
    requires Inv(s) && if t.Psk? then how == FromPsk(t.dev) else t == StaticSk && how == FromStatic
    ensures var s' := LoseTerm(s, t, how); Inv(s') && Grows(s, s')
  {
    LossKeeps(s, LoseTerm(s, t, how), {t}, {t});
  }

  /** What an honest record holds: a payload of the run whose key sealed it. */
  lemma LoggedRecord(s: State, k: Term, nonce: Term, aad: Term, p: Term)
    requires LogOk(s) && Seal(k, nonce, aad, p) in s.log
    ensures p.Payload? && p.run < |s.clients| && s.clients[p.run].accepted && k == C2sKey(s.clients[p.run].v)
  {
    var t := Seal(k, nonce, aad, p);
    assert SentBy(s, t, s.log[t]);
  }

  /** A record that can be opened holds something public, or a payload whose key the adversary holds. */
  lemma OpenedRecord(s: State, k: Term, nonce: Term, aad: Term, p: Term)
    requires KnowOk(s) && LogOk(s) && Seal(k, nonce, aad, p) in s.know && k in s.know
    ensures Known(s, p) || (Seal(k, nonce, aad, p) in s.log && p.Payload?)
    ensures p.Payload? && p !in s.leaked ==>
              p.run < |s.clients| && s.clients[p.run].accepted && C2sKey(s.clients[p.run].v) in s.know
  {
    assert Known(s, Seal(k, nonce, aad, p));
    if Seal(k, nonce, aad, p) in s.log { LoggedRecord(s, k, nonce, aad, p); }
  }

  /** Opening a record yields something public, or a payload that counts as lost from then on. */
  lemma OpenedKnown(s: State, rule: Rule)
    requires KnowOk(s) && LogOk(s) && Premises(rule, s.know)
    ensures Known(Deduce(s, rule), Conclusion(rule))
    ensures rule.ROpen? && rule.p.Payload? && rule.p !in s.leaked ==> LostBy(Deduce(s, rule), rule.p, Opened)
  {
    var s' := Deduce(s, rule);
    forall t <- s.know ensures Known(s', t) { KnownGrows(s, s', t); }
    if rule.ROpen? {
      OpenedRecord(s, rule.k, rule.nonce, rule.aad, rule.p);
      if Known(s, rule.p) { KnownGrows(s, s', rule.p); }
    } else {
      DeductionStaysPublic(s'.leaked.Keys, s'.log.Keys, s.know, rule);
    }
  }

  lemma DeduceKeeps(s: State, rule: Rule)
    requires Inv(s) && Premises(rule, s.know)
    ensures var s' := Deduce(s, rule); Inv(s') && Grows(s, s')
  {
    var s' := Deduce(s, rule);
    var t := Conclusion(rule);
    OpenedKnown(s, rule);
    LossKeeps(s, s', {t}, if rule.ROpen? && t.Payload? && t !in s.leaked then {t} else {});
  }

  // ---------------------------------------------------------------- reading live memory

  lemma LiveClientSecret(c: ClientRun, t: Term)
    requires t in ClientSecrets(c) && (c.phase == Running ==> c.accepted)
    ensures t == Psk(c.v.dev) || ClientSecret(c, t)
  {
  }

  lemma RunningIsAccepted(s: State, i: nat)
    requires ClientsOk(s) && i < |s.clients|
    ensures s.clients[i].phase == Running ==> s.clients[i].accepted
  {
    assert ClientOk(s, i);
  }

  lemma LostToClient(s: State, i: nat, c: ClientRun, t: Term)
    requires i < |s.clients| && s.clients[i] == c.(revealed := true) && Psk(c.v.dev) in s.leaked && ClientSecret(c, t)
    ensures LostBy(s, t, FromClient(i))
  {
  }

  lemma RevealedClient(s: State, s': State, i: nat, t: Term)
    requires ClientsOk(s) && i < |s.clients| && t in ClientSecrets(s.clients[i])
    requires s'.clients == s.clients[i := s.clients[i].(revealed := true)] && Psk(s.clients[i].v.dev) in s'.leaked
    requires t in s'.leaked
    ensures LostBy(s', t, if t.Psk? then FromPsk(t.dev) else FromClient(i)) && Known(s', t)
  {
    RunningIsAccepted(s, i);
    LiveClientSecret(s.clients[i], t);
    if t != Psk(s.clients[i].v.dev) {
      ClientSecretShape(s, i, t);
      LostToClient(s', i, s.clients[i], t);
    }
    LeakedIsKnown(s', t);
  }

  lemma LeakedIsKnown(s: State, t: Term)
    requires t in s.leaked && (t.Psk? || t.EphSk? || t.Mac? || KemOutput(t))
    ensures Known(s, t)
  {
  }

  lemma LiveServerSecret(j: nat, r: ServerRun, t: Term)
    requires t in ServerSecrets(j, r) && (r.phase == Open ==> r.completed)
    ensures t == Psk(r.v.dev) || ServerSecret(j, r, t)
  {
  }

  lemma RevealedServer(s: State, s': State, j: nat, t: Term)
    requires ServersOk(s) && j < |s.servers| && s.servers[j].phase != Over && t in ServerSecrets(j, s.servers[j])
    requires s'.servers == s.servers[j := s.servers[j].(revealed := true)] && Psk(s.servers[j].v.dev) in s'.leaked
    requires t in s'.leaked && (s.servers[j].phase == Open ==> s.servers[j].completed)
    ensures LostBy(s', t, if t.Psk? then FromPsk(t.dev) else FromServer(j)) && Known(s', t)
  {
    LiveServerSecret(j, s.servers[j], t);
    if t != Psk(s.servers[j].v.dev) {
      ServerSecretShape(s, j, t);
      ServerSecretGrows(j, s.servers[j], s'.servers[j], t);
    }
    LeakedIsKnown(s', t);
  }

  lemma RevealClientKeeps(s: State, i: nat)
    requires Inv(s) && Enabled(s, ARevealClient(i))
    ensures var s' := RevealClient(s, i); Inv(s') && Grows(s, s')
  {
    var s' := RevealClient(s, i);
    var ts := ClientSecrets(s.clients[i]);
    assert ClientOk(s, i);
    ClientUpdate(s, s', i);
    forall t <- ts ensures LostBy(s', t, if t.Psk? then FromPsk(t.dev) else FromClient(i)) && Known(s', t) {
      RevealedClient(s, s', i, t);
    }
    ClientOkGrows(s, s', i);
    RevealKeeps(s, s', ts, FromClient(i), i, |s.servers|);
  }

  lemma RevealedServerAll(s: State, s': State, j: nat, ts: set<Term>)
    requires ServersOk(s) && j < |s.servers| && s.servers[j].phase != Over && ts == ServerSecrets(j, s.servers[j])
    requires s.servers[j].phase == Open ==> s.servers[j].completed
    requires s'.servers == s.servers[j := s.servers[j].(revealed := true)] && ts <= s'.leaked.Keys
    ensures forall t <- ts :: LostBy(s', t, if t.Psk? then FromPsk(t.dev) else FromServer(j)) && Known(s', t)
  {
    assert Psk(s.servers[j].v.dev) in s'.leaked.Keys;
    forall t <- ts ensures LostBy(s', t, if t.Psk? then FromPsk(t.dev) else FromServer(j)) && Known(s', t) {
      assert t in s'.leaked.Keys;
      RevealedServer(s, s', j, t);
    }
  }

  lemma RevealServerGrows(s: State, s': State, j: nat)
    requires j < |s.servers| && s.servers[j].phase != Over && ServerOk(s, j) && GotOk(s, j)
    requires SetsGrow(s, s') && s'.clients == s.clients && s'.servers == s.servers[j := s.servers[j].(revealed := true)]
    ensures Grows(s, s') && OnlyAt(s.servers, s'.servers, j) && OnlyAt(s.clients, s'.clients, |s.clients|)
    ensures ServerOk(s', j) && GotOk(s', j)
  {
    ServerUpdate(s, s', j);
    ServerOkGrows(s, s', j);
    GotOkGrows(s, s', j);
  }

  lemma RevealServerKeeps(s: State, j: nat)
    requires Inv(s) && Enabled(s, ARevealServer(j))
    ensures var s' := RevealServer(s, j); Inv(s') && Grows(s, s')
  {
    var s' := RevealServer(s, j);
    var ts := ServerSecrets(j, s.servers[j]);
    assert ServerOk(s, j) && GotOk(s, j);
    RevealedServerAll(s, s', j, ts);
    RevealServerGrows(s, s', j);
    RevealKeeps(s, s', ts, FromServer(j), |s.clients|, j);
  }

  lemma RevealKeeps(s: State, s': State, ts: set<Term>, how: Leak, i: nat, j: nat)
    requires Inv(s) && Grows(s, s') && OnlyAt(s.clients, s'.clients, i) && OnlyAt(s.servers, s'.servers, j)
    requires s'.know == s.know + ts && s'.leaked == LoseAll(s.leaked, ts, how) && s.leaked.Keys <= s.know
    requires s'.log == s.log && s'.encs == s.encs
    requires forall t <- ts :: LostBy(s', t, if t.Psk? then FromPsk(t.dev) else how) && Known(s', t)
    requires i < |s'.clients| ==> ClientOk(s', i)
    requires j < |s'.servers| ==> ServerOk(s', j) && GotOk(s', j)
    ensures Inv(s')
  {
    KnowStep(s, s', ts);
    LogStep(s, s', Empty, ByHello(0));
    LeakStep(s, s', ts);
    ClientsStep(s, s', i);
    ServersStep(s, s', j);
    GotStep(s, s', j);
    EncsGrow(s, s');
  }

  // ---------------------------------------------------------------- all steps, all runs

  lemma InitInv()
    ensures Inv(Init)
  {
  }

  lemma StepKeeps(s: State, a: Action)
    requires Inv(s) && Enabled(s, a)
    ensures Inv(Apply(s, a)) && Grows(s, Apply(s, a))
  {
    match a
    case Register(dev) => RegisterKeeps(s, dev);
    case AClientStart(dev, suite) => ClientStartKeeps(s, dev, suite);
    case AClientReceive(i, sn, sid, ek, mac) => ClientReceiveKeeps(s, i, sn, sid, ek, mac);
    case AClientSend(i, len, wrote) => ClientSendKeeps(s, i, len, wrote);
    case AClientStop(i) => ClientStopKeeps(s, i);
    case AServerReceive(dev, suite, cn, ct) => ServerReceiveKeeps(s, suite, dev, cn, ct);
    case AServerFinish(j, ctEph, mac) => ServerFinishKeeps(s, j, ctEph, mac);
    case AServerRead(j, n, len, body) => ServerReadKeeps(s, j, n, len, body);
    case AServerStop(j) => ServerStopKeeps(s, j);
    case ADeduce(rule) => DeduceKeeps(s, rule);
    case ALoseStatic => LoseTermKeeps(s, StaticSk, FromStatic);
    case ALosePsk(d) => LoseTermKeeps(s, Psk(d), FromPsk(d));
    case ARevealClient(i) => RevealClientKeeps(s, i);
    case ARevealServer(j) => RevealServerKeeps(s, j);
  }

  lemma GrowsTransitive(s: State, t: State, u: State)
    requires Grows(s, t) && Grows(t, u)
    ensures Grows(s, u)
  {
    forall i | 0 <= i < |s.clients| ensures ClientGrows(s.clients[i], u.clients[i]) {
      assert ClientGrows(s.clients[i], t.clients[i]) && ClientGrows(t.clients[i], u.clients[i]);
    }
    forall j | 0 <= j < |s.servers| ensures ServerGrows(s.servers[j], u.servers[j]) {
      assert ServerGrows(s.servers[j], t.servers[j]) && ServerGrows(t.servers[j], u.servers[j]);
    }
  }

  /** Along any execution from a state satisfying the invariant, it holds throughout and runs only move forward. */
  lemma {:induction false} ExecutionKeeps(run: seq<State>, m: nat)
    requires Execution(run) && Inv(run[0]) && m < |run|
    ensures Inv(run[m]) && Grows(run[0], run[m])
    decreases m
  {
    if m > 0 {
      ExecutionKeeps(run, m - 1);
      assert Next(run[m - 1], run[m - 1 + 1]);
      var a :| Step(run[m - 1], a, run[m]);
      StepKeeps(run[m - 1], a);
      GrowsTransitive(run[0], run[m - 1], run[m]);
    }
  }
}
