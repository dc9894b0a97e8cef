/**
 * Every check that fails ends its run for good: a client gets one ServerHello, a
 * server run one ClientFinished, and nothing follows a refused message, a refused
 * record or a failed write.
 */
module Endings {
  import opened Terms
  import opened Protocol
  import opened Invariants
  import opened Steps
  import opened Security

  /** Client run i takes no message and sends nothing any more, and holds nothing that could be read. */
  predicate ClientEnded(s: State, i: nat) {
    i < |s.clients| && s.clients[i].phase == Stopped && ClientSecrets(s.clients[i]) == {}
  }

  predicate ServerEnded(s: State, j: nat) {
    j < |s.servers| && s.servers[j].phase == Over && ServerSecrets(j, s.servers[j]) == {}
  }

  lemma EndedClientIsIdle(s: State, i: nat)
    requires ClientEnded(s, i)
    ensures forall sn, sid, ek, mac :: !Enabled(s, AClientReceive(i, sn, sid, ek, mac))
    ensures forall len, wrote :: !Enabled(s, AClientSend(i, len, wrote))
    ensures !Enabled(s, ARevealClient(i))
  {
  }

  lemma EndedServerIsIdle(s: State, j: nat)
    requires ServerEnded(s, j)
    ensures forall ctEph, mac :: !Enabled(s, AServerFinish(j, ctEph, mac))
    ensures forall n, len, body :: !Enabled(s, AServerRead(j, n, len, body))
    ensures !Enabled(s, ARevealServer(j))
  {
  }

  /** What a step did to a run, and what every later state makes of it. */
  lemma AfterStep(s: State, a: Action, t: State)
    requires Reachable(s) && Enabled(s, a) && Reaches(Apply(s, a), t)
    ensures Grows(Apply(s, a), t)
  {
    ReachableInv(s);
    StepKeeps(s, a);
    ReachesKeeps(Apply(s, a), t);
  }

  lemma ClientStays(s: State, t: State, i: nat)
    requires Grows(s, t) && i < |s.clients|
    ensures i < |t.clients| && ClientGrows(s.clients[i], t.clients[i])
    ensures ClientEnded(s, i) ==> ClientEnded(t, i) && t.clients[i] == s.clients[i]
  {
  }

  lemma ServerStays(s: State, t: State, j: nat)
    requires Grows(s, t) && j < |s.servers|
    ensures j < |t.servers| && ServerGrows(s.servers[j], t.servers[j])
    ensures ServerEnded(s, j) ==> ServerEnded(t, j) && t.servers[j] == s.servers[j]
  {
  }

  /**
   * One ServerHello per client run: whatever the first one was, no later state takes
   * another. The run has accepted exactly if that one passed both checks; otherwise
   * it is over, as it was, and has sent nothing but its hello.
   */
  lemma OneServerHello(s: State, i: nat, sn: Term, sid: Term, ek: Term, mac: Term, t: State)
    requires Reachable(s) && Enabled(s, AClientReceive(i, sn, sid, ek, mac))
    requires Reaches(Apply(s, AClientReceive(i, sn, sid, ek, mac)), t)
    ensures i < |t.clients| && forall sn', sid', ek', mac' :: !Enabled(t, AClientReceive(i, sn', sid', ek', mac'))
    ensures t.clients[i].accepted <==> Acceptable(Offered(s.clients[i].v, sn, sid, ek), mac)
    ensures !t.clients[i].accepted ==>
              ClientEnded(t, i) && t.clients[i] == s.clients[i].(phase := Stopped) && t.clients[i].sealed == [] &&
              forall x <- t.log :: !t.log[x].ByHello? && !t.log[x].ByServer? ==> t.log[x].i != i
  {
    var a := AClientReceive(i, sn, sid, ek, mac);
    AfterStep(s, a, t);
    WaitingHasNotAccepted(s, i);
    ClientStays(Apply(s, a), t, i);
    if !Acceptable(Offered(s.clients[i].v, sn, sid, ek), mac) {
      StepReaches(s, a);
      ReachesTransitive(Init, s, Apply(s, a));
      ReachesTransitive(Init, Apply(s, a), t);
      NothingBeforeAcceptance(t, i);
    }
  }

  lemma WaitingHasNotAccepted(s: State, i: nat)
    requires Reachable(s) && i < |s.clients| && s.clients[i].phase == Waiting
    ensures !s.clients[i].accepted && s.clients[i].sealed == []
  {
    ReachableInv(s);
    assert ClientOk(s, i);
  }

  /** One ClientFinished per server run: it has completed exactly if that one carried its own client MAC. */
  lemma OneFinished(s: State, j: nat, ctEph: Term, mac: Term, t: State)
    requires Reachable(s) && Enabled(s, AServerFinish(j, ctEph, mac))
    requires Reaches(Apply(s, AServerFinish(j, ctEph, mac)), t)
    ensures j < |t.servers| && forall ctEph', mac' :: !Enabled(t, AServerFinish(j, ctEph', mac'))
    ensures var v := s.servers[j].v;
            t.servers[j].completed <==> mac == ClientMac(Concluded(j, v, ctEph)) && (IsFs(v.suite) || ctEph == Empty)
    ensures !t.servers[j].completed ==>
              ServerEnded(t, j) && t.servers[j] == s.servers[j].(phase := Over) && t.servers[j].got == []
  {
    var a := AServerFinish(j, ctEph, mac);
    AfterStep(s, a, t);
    AwaitingHasNotCompleted(s, j);
    ServerStays(Apply(s, a), t, j);
  }

  lemma AwaitingHasNotCompleted(s: State, j: nat)
    requires Reachable(s) && j < |s.servers| && s.servers[j].phase == Awaiting
    ensures !s.servers[j].completed && s.servers[j].got == []
  {
    ReachableInv(s);
    assert ServerOk(s, j);
  }

  /**
   * A record is taken exactly if its number is above the last and it opens, and then
   * its plaintext is what is added; one that is not taken, a replay included, ends
   * the session with what had been delivered before, for good.
   */
  lemma RefusedRecordEndsSession(s: State, j: nat, n: nat, len: nat, body: Term, t: State)
    requires Reachable(s) && Enabled(s, AServerRead(j, n, len, body))
    requires Reaches(Apply(s, AServerRead(j, n, len, body)), t)
    ensures j < |t.servers|
    ensures n > s.servers[j].last && Opens(s.servers[j].v, n, len, body) ==>
              s.servers[j].got + [(n, body.plain)] <= t.servers[j].got
    ensures n <= s.servers[j].last || !Opens(s.servers[j].v, n, len, body) ==>
              ServerEnded(t, j) && t.servers[j] == s.servers[j].(phase := Over) && t.servers[j].got == s.servers[j].got
  {
    var a := AServerRead(j, n, len, body);
    AfterStep(s, a, t);
    ServerStays(Apply(s, a), t, j);
  }

  /** After a failed write nothing more is encrypted, although send_seq has not moved. */
  lemma FailedWriteEndsSession(s: State, i: nat, len: nat, t: State)
    requires Reachable(s) && Enabled(s, AClientSend(i, len, false)) && Reaches(Apply(s, AClientSend(i, len, false)), t)
    ensures ClientEnded(t, i) && t.clients[i].sealed == s.clients[i].sealed + [len]
    ensures t.clients[i].sendSeq == s.clients[i].sendSeq
  {
    var a := AClientSend(i, len, false);
    AfterStep(s, a, t);
    ClientStays(Apply(s, a), t, i);
  }

  /** Any run can end at any time, as when a connection breaks. */
  lemma AnyRunCanEnd(s: State, i: nat, j: nat)
    ensures i < |s.clients| ==> Reaches(s, Apply(s, AClientStop(i))) && ClientEnded(Apply(s, AClientStop(i)), i)
    ensures j < |s.servers| ==> Reaches(s, Apply(s, AServerStop(j))) && ServerEnded(Apply(s, AServerStop(j)), j)
  {
    if i < |s.clients| { StepReaches(s, AClientStop(i)); }
    if j < |s.servers| { StepReaches(s, AServerStop(j)); }
  }
}
