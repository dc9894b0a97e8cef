/**
 * What the PSK MAC in ClientHello is worth: it proves which device spoke, not that
 * it speaks now. Replayed hellos are answered, but at most one answer completes.
 */
module Admission {
  import opened Terms
  import opened Protocol
  import opened Invariants
  import opened Secrecy
  import opened Steps
  import opened Security

  /** The hello of client run i is this one. */
  predicate Spoke(s: State, i: nat, dev: nat, suite: nat, cn: Term, ct: Term) {
    i < |s.clients| && var v := s.clients[i].v; v.dev == dev && v.suite == suite && v.cn == cn && v.ct == ct
  }

  lemma HelloMacOrigin(s: State, v: Session)
    requires Shaped(s) && HelloMac(v) in s.log
    ensures exists i: nat :: Spoke(s, i, v.dev, v.suite, v.cn, v.ct)
  {
    assert SentBy(s, HelloMac(v), s.log[HelloMac(v)]);
    match s.log[HelloMac(v)]
    case ByHello(i) => assert Spoke(s, i, v.dev, v.suite, v.cn, v.ct);
    case _ =>
  }

  lemma HelloMacNotLeaked(s: State, v: Session)
    requires Shaped(s)
    ensures HelloMac(v) !in s.leaked
  {
    if HelloMac(v) in s.leaked { LeakedMacShape(s, Psk(v.dev), Pair(Tag(Hello), HelloBody(v))); }
  }

  /** A hello the server admits was sent by a client run of that device, unless the device's PSK is lost. */
  lemma AdmittedHelloIsGenuine(s: State, dev: nat, suite: nat, cn: Term, ct: Term)
    requires Reachable(s) && Enabled(s, AServerReceive(dev, suite, cn, ct)) && Psk(dev) !in s.know
    ensures exists i: nat :: Spoke(s, i, dev, suite, cn, ct)
  {
    ReachableInv(s);
    var v := FreshServer(|s.servers|, suite, dev, cn, ct).v;
    HelloMacNotLeaked(s, v);
    assert Known(s, ClientHello(v));
    assert Known(s, HelloMac(v)) && !Known(s, Psk(dev));
    HelloMacOrigin(s, v);
  }

  /** Only registered devices are served, in the four suites, and only on a hello that was on the network. */
  lemma OnlyRegisteredAreServed(s: State, j: nat)
    requires Reachable(s) && j < |s.servers|
    ensures var v := s.servers[j].v; v.dev in s.devices && IsSuite(v.suite) && ClientHello(v) in s.know
  {
    ReachableInv(s);
    assert ServerOk(s, j);
  }

  lemma SameHelloAgain(s: State, i: nat)
    requires ClientsOk(s) && i < |s.clients|
    ensures var v := s.clients[i].v; var w := FreshServer(|s.servers|, v.suite, v.dev, v.cn, v.ct).v;
            ClientHello(w) == ClientHello(v) && ClientHello(v) in s.know && w.ss == v.ss && IsSuite(v.suite)
  {
    assert ClientOk(s, i);
  }

  /**
   * It need not have been sent just now: a hello a registered device once sent is
   * admitted, and its ciphertext decapsulated, at any later time. Freshness comes
   * with ClientFinished, not with the hello.
   */
  lemma EveryOldHelloIsAdmitted(s: State, i: nat)
    requires Reachable(s) && i < |s.clients| && s.clients[i].v.dev in s.devices
    ensures var v := s.clients[i].v; Enabled(s, AServerReceive(v.dev, v.suite, v.cn, v.ct))
    ensures var v := s.clients[i].v; var t := Apply(s, AServerReceive(v.dev, v.suite, v.cn, v.ct));
            Reaches(s, t) && t.servers[|s.servers|].v.ss == v.ss && t.servers[|s.servers|].phase == Awaiting
  {
    ReachableInv(s);
    SameHelloAgain(s, i);
    var v := s.clients[i].v;
    StepReaches(s, AServerReceive(v.dev, v.suite, v.cn, v.ct));
  }

  /** Session replay: of all server runs that answered one hello, at most one completes while the PSK is safe. */
  lemma AtMostOneAnswerCompletes(s: State, j: nat, k: nat)
    requires Reachable(s) && j < |s.servers| && k < |s.servers| && s.servers[j].clean && s.servers[k].clean
    requires s.servers[j].v.cn == s.servers[k].v.cn
    ensures j == k
  {
    ReachableInv(s);
    assert ServerOk(s, j) && ServerOk(s, k);
  }
}
