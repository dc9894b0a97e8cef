/**
 * Preservation of the invariant, one clause at a time.
 */
module Preservation {
  import opened Terms
  import opened Protocol
  import opened Invariants

  // ---------------------------------------------------------------- stability under growth

  lemma KnownGrows(s: State, s': State, t: Term)
    requires s.leaked.Keys <= s'.leaked.Keys && s.log.Keys <= s'.log.Keys
    requires Known(s, t)
    ensures Known(s', t)
  {
    PubMonotone(s.leaked.Keys, s.log.Keys, s'.leaked.Keys, s'.log.Keys, t);
  }

  lemma SentByGrows(s: State, s': State, t: Term, who: Sender)
    requires Grows(s, s') && SentBy(s, t, who)
    ensures SentBy(s', t, who)
  {
    match who
    case ByHello(i) => assert ClientGrows(s.clients[i], s'.clients[i]);
    case ByServer(j) => assert ServerGrows(s.servers[j], s'.servers[j]);
    case ByFinished(i) => assert ClientGrows(s.clients[i], s'.clients[i]);
    case ByRecord(i, n) => assert ClientGrows(s.clients[i], s'.clients[i]);
  }

  lemma ServerSecretGrows(j: nat, r: ServerRun, r': ServerRun, t: Term)
    requires ServerGrows(r, r') && ServerSecret(j, r, t)
    ensures ServerSecret(j, r', t)
  {
  }

  lemma LostByGrows(s: State, s': State, t: Term, how: Leak)
    requires Grows(s, s') && LostBy(s, t, how)
    ensures LostBy(s', t, how)
  {
    match how
    case FromStatic =>
    case FromPsk(d) =>
    case FromClient(i) => assert ClientGrows(s.clients[i], s'.clients[i]);
    case FromServer(j) => ServerSecretGrows(j, s.servers[j], s'.servers[j], t);
    case Opened => assert ClientGrows(s.clients[t.run], s'.clients[t.run]);
  }

  lemma ServerMatchGrows(s: State, s': State, v: Session)
    requires Grows(s, s') && ServerMatch(s, v)
    ensures ServerMatch(s', v)
  {
    assert ServerGrows(s.servers[v.sn.run], s'.servers[v.sn.run]);
  }

  lemma ClientMatchGrows(s: State, s': State, v: Session)
    requires Grows(s, s') && ClientMatch(s, v)
    ensures ClientMatch(s', v)
    ensures s'.clients[v.cn.run].exposed == s.clients[v.cn.run].exposed
    ensures s.clients[v.cn.run].sealed <= s'.clients[v.cn.run].sealed
  {
    assert ClientGrows(s.clients[v.cn.run], s'.clients[v.cn.run]);
  }

  // ---------------------------------------------------------------- clause by clause

  /** At most entry k differs, which may be a new last entry. */
  ghost predicate OnlyAt<T>(xs: seq<T>, ys: seq<T>, k: nat) {
    |xs| <= |ys| <= |xs| + 1 && (|ys| > |xs| ==> k == |xs|) && forall i: nat :: i < |xs| && i != k ==> ys[i] == xs[i]
  }

  lemma KnowStep(s: State, s': State, new_: set<Term>)
    requires KnowOk(s) && Grows(s, s') && s'.know == s.know + new_ && s'.leaked.Keys <= s'.know
    requires forall t <- new_ :: Known(s', t)
    ensures KnowOk(s')
  {
    forall t <- s'.know ensures Known(s', t) {
      if t in s.know { KnownGrows(s, s', t); }
    }
  }

  lemma LogStep(s: State, s': State, t0: Term, who: Sender)
    requires LogOk(s) && Grows(s, s')
    requires s'.log == s.log || (s'.log == s.log[t0 := who] && SentBy(s', t0, who))
    ensures LogOk(s')
  {
    forall t <- s'.log ensures SentBy(s', t, s'.log[t]) {
      if t in s.log && s'.log[t] == s.log[t] { SentByGrows(s, s', t, s.log[t]); }
    }
  }

  lemma LeakStep(s: State, s': State, ts: set<Term>)
    requires LeakOk(s) && Grows(s, s')
    requires s'.leaked.Keys == s.leaked.Keys + ts
    requires forall t <- s'.leaked :: if t in ts then LostBy(s', t, s'.leaked[t]) else s'.leaked[t] == s.leaked[t]
    ensures LeakOk(s')
  {
    forall t <- s'.leaked ensures LostBy(s', t, s'.leaked[t]) {
      if t !in ts { LostByGrows(s, s', t, s.leaked[t]); }
    }
  }

  lemma ClientOkGrows(s: State, s': State, i: nat)
    requires Grows(s, s') && i < |s.clients| && ClientOk(s, i)
    requires s'.clients[i] == s.clients[i] || s'.clients[i] == s.clients[i].(phase := Stopped) ||
             s'.clients[i] == s.clients[i].(revealed := true)
    ensures ClientOk(s', i)
  {
    var c := s.clients[i];
    if c.accepted && !c.exposed { ServerMatchGrows(s, s', c.v); }
  }

  lemma ClientsStep(s: State, s': State, k: nat)
    requires ClientsOk(s) && Grows(s, s')
    requires OnlyAt(s.clients, s'.clients, k)
    requires k < |s'.clients| ==> ClientOk(s', k)
    ensures ClientsOk(s')
  {
    forall i: nat | i < |s'.clients| ensures ClientOk(s', i) {
      if i != k { ClientOkGrows(s, s', i); }
    }
  }

  lemma ServerOkGrows(s: State, s': State, j: nat)
    requires Grows(s, s') && j < |s.servers| && ServerOk(s, j)
    requires s'.servers[j] == s.servers[j] || s'.servers[j] == s.servers[j].(phase := Over) ||
             s'.servers[j] == s.servers[j].(revealed := true)
    ensures ServerOk(s', j)
  {
    var r := s.servers[j];
    if r.clean { ClientMatchGrows(s, s', r.v); }
  }

  lemma ServersStep(s: State, s': State, k: nat)
    requires ServersOk(s) && Grows(s, s')
    requires OnlyAt(s.servers, s'.servers, k)
    requires k < |s'.servers| ==> ServerOk(s', k)
    ensures ServersOk(s')
  {
    forall j: nat | j < |s'.servers| ensures ServerOk(s', j) {
      if j != k { ServerOkGrows(s, s', j); }
    }
  }

  /** A run that has delivered nothing more under an unchanged view keeps the clause. */
  lemma GotOkGrows(s: State, s': State, j: nat)
    requires Grows(s, s') && j < |s.servers| && GotOk(s, j)
    requires s'.servers[j].got == s.servers[j].got
    requires s.servers[j].got == [] || s'.servers[j].v == s.servers[j].v
    ensures GotOk(s', j)
  {
    var v := s.servers[j].v;
    if s.servers[j].got != [] {
      if Known(s, C2sKey(v)) { KnownGrows(s, s', C2sKey(v)); }
      else {
        forall e <- s.servers[j].got ensures Delivered(s', v, e) {
          assert Delivered(s, v, e);
          ClientMatchGrows(s, s', v);
        }
      }
    }
  }

  lemma GotStep(s: State, s': State, k: nat)
    requires AllGotOk(s) && ServersOk(s) && Grows(s, s')
    requires OnlyAt(s.servers, s'.servers, k)
    requires k < |s'.servers| ==> GotOk(s', k)
    ensures AllGotOk(s')
  {
    forall j: nat | j < |s'.servers| ensures GotOk(s', j) {
      if j != k { GotOkGrows(s, s', j); }
    }
  }

  lemma EncsGrow(s: State, s': State)
    requires EncsOk(s) && Grows(s, s') && s'.encs == s.encs
    ensures EncsOk(s')
  {
    forall e <- s.encs ensures EncOk(s', e) {
      assert EncOk(s, e);
      assert ClientGrows(s.clients[e.i], s'.clients[e.i]);
    }
  }

  // ---------------------------------------------------------------- assembling a step

  ghost predicate SetsGrow(s: State, s': State) {
    s.know <= s'.know && s.leaked.Keys <= s'.leaked.Keys && s.log.Keys <= s'.log.Keys && s.devices <= s'.devices
  }

  lemma ClientUpdate(s: State, s': State, i: nat)
    requires SetsGrow(s, s') && s'.servers == s.servers && i < |s.clients| == |s'.clients|
    requires s'.clients == s.clients[i := s'.clients[i]] && ClientGrows(s.clients[i], s'.clients[i])
    ensures Grows(s, s') && OnlyAt(s.clients, s'.clients, i) && OnlyAt(s.servers, s'.servers, |s.servers|)
  {
  }

  lemma ServerUpdate(s: State, s': State, j: nat)
    requires SetsGrow(s, s') && s'.clients == s.clients && j < |s.servers| == |s'.servers|
    requires s'.servers == s.servers[j := s'.servers[j]] && ServerGrows(s.servers[j], s'.servers[j])
    ensures Grows(s, s') && OnlyAt(s.servers, s'.servers, j) && OnlyAt(s.clients, s'.clients, |s.clients|)
  {
  }

  lemma RunAppend(s: State, s': State)
    requires SetsGrow(s, s')
    requires s.clients <= s'.clients && |s'.clients| <= |s.clients| + 1
    requires s.servers <= s'.servers && |s'.servers| <= |s.servers| + 1
    ensures Grows(s, s') && OnlyAt(s.clients, s'.clients, |s.clients|) && OnlyAt(s.servers, s'.servers, |s.servers|)
  {
  }

  /** The invariant follows from what changed: terms, one log entry, one client run, one server run. */
  lemma Assemble(s: State, s': State, ts: set<Term>, t0: Term, who: Sender, i: nat, j: nat)
    requires Inv(s) && Grows(s, s') && OnlyAt(s.clients, s'.clients, i) && OnlyAt(s.servers, s'.servers, j)
    requires s'.know == s.know + ts && forall t <- ts :: Known(s', t)
    requires s'.log == s.log || (s'.log == s.log[t0 := who] && SentBy(s', t0, who))
    requires s'.leaked == s.leaked
    requires i < |s'.clients| ==> ClientOk(s', i)
    requires j < |s'.servers| ==> ServerOk(s', j) && GotOk(s', j)
    requires EncsOk(s')
    ensures Inv(s')
  {
    KnowStep(s, s', ts);
    LogStep(s, s', t0, who);
    LeakStep(s, s', {});
    ClientsStep(s, s', i);
    ServersStep(s, s', j);
    GotStep(s, s', j);
  }

  lemma KnownPair(s: State, a: Term, b: Term)
    requires Known(s, a) && Known(s, b)
    ensures Known(s, Pair(a, b))
  {
  }
}
