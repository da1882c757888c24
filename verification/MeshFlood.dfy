/** Link-state flooding over a settled graph converges, with packets duplicated and reordered
    throughout (crates/node/src/node.rs).  How much work that takes is in module MeshBounds. */
module MeshFlood {
  import opened Common
  import opened LinkState
  import opened Mesh
  import opened MeshLsa
  import opened NodeStates
  import MeshHandshake
  import MeshState

  type Graph = map<NodeId, set<NodeId>>

  // ----- the window

  /** The flood targets of every node are those of the graph. */
  ghost predicate Settled(net: Net, graph: Graph) {
    graph.Keys == net.sites.Keys && forall u <- net.sites :: FloodTargets(net.sites[u].node) == graph[u]
  }

  /** Neither a clean-up nor the loss of a LinkState packet. */
  predicate Quiet(ev: Event) { !ev.CleanAt? && !ev.LoseLsa? }

  /** No clean-up drops o's entry at another node. */
  predicate SparesEntry(net: Net, ev: Event, o: NodeId)
    requires Enabled(net, ev)
  {
    ev.CleanAt? && ev.u != o && o in net.sites[ev.u].node.lsas ==>
        !Stale(net.sites[ev.u].node.lsas[o], net.now / SECOND)
  }

  /** Moreover no packet of o is lost.  Other entries may age away and other packets be lost. */
  predicate QuietFor(net: Net, ev: Event, o: NodeId)
    requires Enabled(net, ev)
  {
    SparesEntry(net, ev, o) && (ev.LoseLsa? ==> ev.q.lsa.origin != o)
  }

  /** A run that is quiet for o and during which the flooding graph does not change. */
  ghost predicate SettledRun(net: Net, evs: seq<Event>, graph: Graph, o: NodeId)
    decreases |evs|
  {
    && Settled(net, graph)
    && (evs != [] ==>
          Enabled(net, evs[0]) && QuietFor(net, evs[0], o) && SettledRun(Next(net, evs[0]), evs[1..], graph, o))
  }

  lemma {:induction false} SettledRunRuns(net: Net, evs: seq<Event>, graph: Graph, o: NodeId)
    requires SettledRun(net, evs, graph, o)
    ensures Runs(net, evs) && Settled(After(net, evs), graph)
    decreases |evs|
  {
    if evs != [] {
      SettledRunRuns(Next(net, evs[0]), evs[1..], graph, o);
    }
  }

  /** What a clean-up that spares o's entries and the loss of a packet have in common: nothing is
      sent or accepted, and what other nodes hold of o stays. */
  ghost predicate SameFor(net: Net, net': Net, o: NodeId) {
    && net'.sites.Keys == net.sites.Keys && net'.published == net.published
    && net'.lsaLog == net.lsaLog && net'.sends == net.sends
    && (forall v <- net.sites :: net'.sites[v].accepted == net.sites[v].accepted)
    && (forall v <- net.sites | v != o :: Lookup(net'.sites[v].node.lsas, o) == Lookup(net.sites[v].node.lsas, o))
  }

  lemma CleanSparing(net: Net, u: NodeId, o: NodeId)
    requires u in net.sites && SparesEntry(net, CleanAt(u), o)
    ensures SameFor(net, NextClean(net, u), o) && NextClean(net, u).lsaFlight == net.lsaFlight
  {
  }

  lemma NotQuietIsSame(net: Net, ev: Event, o: NodeId)
    requires Enabled(net, ev) && !Quiet(ev) && SparesEntry(net, ev, o)
    ensures SameFor(net, Next(net, ev), o)
    ensures QuietFor(net, ev, o) ==>
      forall q <- net.lsaFlight | q.lsa.origin == o :: q in Next(net, ev).lsaFlight
  {
    if ev.CleanAt? {
      CleanSparing(net, ev.u, o);
    } else {
      forall q | q in net.lsaFlight && q != ev.q ensures q in Next(net, ev).lsaFlight {
        assert Next(net, ev).lsaFlight[q] == net.lsaFlight[q];
      }
    }
  }

  /** A Hello address belongs to no other node's unicast socket.  Nodes whose unicast port is
      not the multicast port satisfy this, and then the sender skip never fires. */
  ghost predicate AddressesTell(net: Net) {
    forall v <- net.sites, w <- net.sites
      | HelloSource(net.sites[v].place) == UnicastSource(net.sites[w].place) :: v == w
  }

  lemma PortsTellAddressesApart(net: Net)
    requires forall w <- net.sites :: net.sites[w].place.port != MULTICAST_PORT
    ensures AddressesTell(net)
  {
  }

  /** The sender skip fires exactly for the peers recorded under the packet's source address,
      which in a reachable state are those whose Hello address is the sender's unicast one. */
  lemma SkippedTargets(net: Net, q: LsaPacket, v: NodeId)
    requires Reachable(net) && q.to in net.sites && q.from in net.sites && Takes(net.sites[q.to].node, q.lsa)
    requires v in FloodTargets(net.sites[q.to].node)
    ensures v in net.sites
    ensures v !in Passed(net, q) <==> HelloSource(net.sites[v].place) == UnicastSource(net.sites[q.from].place)
  {
    MeshState.PeersHaveSessions(net, q.to);
  }

  /** What one quiet event does to link state. */
  ghost predicate LsaEffect(net: Net, ev: Event, net': Net)
    requires Enabled(net, ev) && Quiet(ev)
  {
    match ev
    case GenerateAt(u) => GenerateEffect(net, net', u, Generate(net.sites[u].node, net.now).1)
    case PublishAt(u, lsa) => PublishEffect(net, net', u, lsa) && net'.sites[u].node.id == net.sites[u].node.id
    case LsaIn(q, first) => ReceiveEffect(net, net', q, first)
    case _ => LsasKept(net, net')
  }

  lemma HasLsaEffect(net: Net, ev: Event)
    requires Enabled(net, ev) && Quiet(ev) && Grounded(net)
    ensures LsaEffect(net, ev, Next(net, ev))
  {
    if ev.GenerateAt? {
      GenerateHasEffect(net, ev.u);
    } else if ev.PublishAt? {
      PublishHasEffect(net, ev.u, ev.lsa);
    } else if ev.LsaIn? {
      ReceiveHasEffect(net, ev.q, ev.first);
    } else {
      LsasKeptOtherwise(net, ev);
    }
  }

  // ----- coverage

  /** v holds an advertisement of o numbered s or higher. */
  ghost predicate Holds(net: Net, v: NodeId, o: NodeId, s: nat) {
    v in net.sites && o in net.sites[v].node.lsas && net.sites[v].node.lsas[o].sequence >= s
  }

  /** q carries an advertisement of o numbered s or higher to v. */
  predicate Carries(q: LsaPacket, v: NodeId, o: NodeId, s: nat) {
    q.to == v && q.lsa.origin == o && q.lsa.sequence >= s
  }

  ghost predicate Covered(net: Net, v: NodeId, o: NodeId, s: nat) {
    Holds(net, v, o, s) || exists q <- net.lsaFlight :: Carries(q, v, o, s)
  }

  lemma HolderChangesOnlyOnReceive(net: Net, ev: Event, net': Net, u: NodeId, o: NodeId)
    requires Enabled(net, ev) && Quiet(ev) && LsaEffect(net, ev, net') && Grounded(net)
    requires u in net.sites && u != o && !ev.LsaIn?
    ensures Lookup(net'.sites[u].node.lsas, o) == Lookup(net.sites[u].node.lsas, o)
  {
    if !ev.GenerateAt? && !ev.PublishAt? {
      assert SameLsas(net.sites[u], net'.sites[u]);
    }
  }

  lemma ReceiveHolds(net: Net, net': Net, q: LsaPacket, first: bool, v: NodeId, o: NodeId, s: nat)
    requires q.to in net.sites && q.from in net.sites && ReceiveEffect(net, net', q, first) && Grounded(net)
    requires Holds(net, v, o, s)
    ensures Holds(net', v, o, s)
  {
    var x := net.sites[v].node.lsas[o];
    if v == q.to && Takes(net.sites[v].node, q.lsa) && q.lsa.origin == o {
      assert Newer(q.lsa, x) && net'.sites[v].node.lsas[o] == q.lsa;
    } else {
      assert net'.sites[v].node.lsas[o] == x;
    }
  }

  lemma HoldsStays(net: Net, ev: Event, net': Net, v: NodeId, o: NodeId, s: nat)
    requires Enabled(net, ev) && Quiet(ev) && LsaEffect(net, ev, net') && Grounded(net)
    requires v != o && Holds(net, v, o, s)
    ensures Holds(net', v, o, s)
  {
    if ev.LsaIn? {
      ReceiveHolds(net, net', ev.q, ev.first, v, o, s);
    } else {
      HolderChangesOnlyOnReceive(net, ev, net', v, o);
      assert v in net'.sites;
    }
  }

  lemma FlightStays(net: Net, ev: Event, net': Net, q: LsaPacket)
    requires Enabled(net, ev) && Quiet(ev) && LsaEffect(net, ev, net') && !ev.LsaIn?
    requires q in net.lsaFlight
    ensures q in net'.lsaFlight
  {
    if ev.PublishAt? {
      assert net'.lsaFlight[q] >= net.lsaFlight[q] > 0;
    }
  }

  lemma ReceiveCovers(net: Net, net': Net, q: LsaPacket, first: bool, p: LsaPacket, o: NodeId, s: nat)
    requires q.to in net.sites && q.from in net.sites && ReceiveEffect(net, net', q, first) && Grounded(net)
    requires p in net.lsaFlight && Carries(p, p.to, o, s) && p.to != o
    ensures Covered(net', p.to, o, s)
  {
    if p in net'.lsaFlight {
    } else {
      assert p == q;
      GroundedSite(net, q.to);
      assert Holds(net', q.to, o, s);
    }
  }

  lemma CoveredStays(net: Net, ev: Event, net': Net, v: NodeId, o: NodeId, s: nat)
    requires Enabled(net, ev) && Quiet(ev) && LsaEffect(net, ev, net') && Grounded(net)
    requires v != o && Covered(net, v, o, s)
    ensures Covered(net', v, o, s)
  {
    if Holds(net, v, o, s) {
      HoldsStays(net, ev, net', v, o, s);
    } else {
      var q :| q in net.lsaFlight && Carries(q, v, o, s);
      if ev.LsaIn? {
        ReceiveCovers(net, net', ev.q, ev.first, q, o, s);
      } else {
        FlightStays(net, ev, net', q);
      }
    }
  }

  // ----- the convergence invariant, for one origin o and its advertisements after number s0

  /** Every published advertisement has reached or is on its way to o's targets. */
  ghost predicate OriginCovered(net: Net, graph: Graph, o: NodeId, s0: nat) {
    forall x <- net.published, v | x.origin == o && x.sequence > s0 && o in graph && v in graph[o] && v != o ::
      Covered(net, v, o, x.sequence)
  }

  /** Whatever a node holds has reached or is on its way to its targets. */
  ghost predicate HoldersCovered(net: Net, graph: Graph, o: NodeId, s0: nat) {
    forall u <- net.sites, v |
      u != o && o in net.sites[u].node.lsas && net.sites[u].node.lsas[o].sequence > s0 && u in graph
      && v in graph[u] && v != o ::
      Covered(net, v, o, net.sites[u].node.lsas[o].sequence)
  }

  /** Whoever sent an advertisement on still holds it or a newer one. */
  ghost predicate SendersHold(net: Net, o: NodeId, s0: nat) {
    forall q <- net.lsaLog | q.lsa.origin == o && q.lsa.sequence > s0 && q.from != o ::
        Holds(net, q.from, o, q.lsa.sequence)
  }

  ghost predicate FloodInv(net: Net, graph: Graph, o: NodeId, s0: nat) {
    OriginCovered(net, graph, o, s0) && HoldersCovered(net, graph, o, s0) && SendersHold(net, o, s0)
  }

  /** Whoever sends on an advertisement of another origin has just stored it. */
  lemma NewSenderHolds(net: Net, ev: Event, net': Net, q: LsaPacket)
    requires Enabled(net, ev) && Quiet(ev) && LsaEffect(net, ev, net') && (ev.PublishAt? ==> ev.lsa.origin == ev.u)
    requires q in net'.lsaLog && q !in net.lsaLog && q.from != q.lsa.origin
    ensures Holds(net', q.from, q.lsa.origin, q.lsa.sequence)
  {
    assert ev.LsaIn? && q.lsa == ev.q.lsa && q.from == ev.q.to;
    assert Takes(net.sites[ev.q.to].node, ev.q.lsa);
  }

  lemma SendersHoldStep(net: Net, ev: Event, net': Net, o: NodeId, s0: nat)
    requires Enabled(net, ev) && Quiet(ev) && LsaEffect(net, ev, net') && Grounded(net)
    requires SendersHold(net, o, s0)
    ensures SendersHold(net', o, s0)
  {
    forall q | q in net'.lsaLog && q.lsa.origin == o && q.lsa.sequence > s0 && q.from != o
      ensures Holds(net', q.from, o, q.lsa.sequence)
    {
      if q in net.lsaLog {
        HoldsStays(net, ev, net', q.from, o, q.lsa.sequence);
      } else {
        NewSenderHolds(net, ev, net', q);
      }
    }
  }

  lemma PublishedIsCovered(net: Net, net': Net, o: NodeId, x: Lsa, v: NodeId)
    requires o in net.sites && PublishEffect(net, net', o, x) && x.origin == o && v in FloodTargets(net.sites[o].node)
    ensures Covered(net', v, o, x.sequence)
  {
    assert IsCopy(LsaPacket(o, v, x), o, FloodTargets(net.sites[o].node), x);
    assert LsaPacket(o, v, x) in net'.lsaFlight;
  }

  lemma NewlyPublished(net: Net, ev: Event, net': Net, x: Lsa)
    requires Enabled(net, ev) && Quiet(ev) && LsaEffect(net, ev, net') && Grounded(net)
    requires x in net'.published && x !in net.published
    ensures ev == PublishAt(x.origin, x) && x.origin in net.sites
  {
  }

  lemma OriginCoveredStep(net: Net, ev: Event, net': Net, graph: Graph, o: NodeId, s0: nat)
    requires Enabled(net, ev) && Quiet(ev) && LsaEffect(net, ev, net') && Grounded(net) && Settled(net, graph)
    requires OriginCovered(net, graph, o, s0)
    ensures OriginCovered(net', graph, o, s0)
  {
    forall x, v | x in net'.published && x.origin == o && x.sequence > s0 && o in graph && v in graph[o] && v != o
      ensures Covered(net', v, o, x.sequence)
    {
      if x in net.published {
        CoveredStays(net, ev, net', v, o, x.sequence);
      } else {
        NewlyPublished(net, ev, net', x);
        PublishedIsCovered(net, net', o, x, v);
      }
    }
  }

  /** A target skipped by the sender test is the sender, which holds the advertisement. */
  lemma TakenIsCovered(net: Net, net': Net, q: LsaPacket, first: bool, graph: Graph, s0: nat, v: NodeId)
    requires q.to in net.sites && q.from in net.sites && q in net.lsaLog && ReceiveEffect(net, net', q, first)
    requires Grounded(net) && Settled(net, graph) && AddressesTell(net) && SendersHold(net, q.lsa.origin, s0)
    requires Takes(net.sites[q.to].node, q.lsa) && q.lsa.sequence > s0
    requires v in graph[q.to] && v != q.lsa.origin
    ensures v in Passed(net, q) || (v == q.from && Holds(net, v, q.lsa.origin, q.lsa.sequence))
    ensures v in Passed(net, q) ==> Covered(net', v, q.lsa.origin, q.lsa.sequence)
  {
    assert MeshState.CoherentSite(net, q.to);
    if v in Passed(net, q) {
      assert IsCopy(LsaPacket(q.to, v, q.lsa), q.to, Passed(net, q), q.lsa);
      assert LsaPacket(q.to, v, q.lsa) in net'.lsaFlight;
    }
  }

  lemma HolderCoveredAfterReceive(net: Net, net': Net, ev: Event, graph: Graph, o: NodeId, s0: nat, u: NodeId,
                                  v: NodeId)
    requires ev.LsaIn? && Enabled(net, ev) && LsaEffect(net, ev, net')
    requires Grounded(net) && Settled(net, graph) && AddressesTell(net) && SendersHold(net, o, s0)
    requires u in net.sites && Lookup(net'.sites[u].node.lsas, o) != Lookup(net.sites[u].node.lsas, o)
    requires o in net'.sites[u].node.lsas && net'.sites[u].node.lsas[o].sequence > s0 && v in graph[u] && v != o
    ensures Covered(net', v, o, net'.sites[u].node.lsas[o].sequence)
  {
    var q := ev.q;
    assert u == q.to && q.lsa.origin == o && net'.sites[u].node.lsas[o] == q.lsa;
    TakenIsCovered(net, net', q, ev.first, graph, s0, v);
    if v !in Passed(net, q) {
      HoldsStays(net, ev, net', v, o, q.lsa.sequence);
    }
  }

  lemma HoldersCoveredStep(net: Net, ev: Event, net': Net, graph: Graph, o: NodeId, s0: nat)
    requires Enabled(net, ev) && Quiet(ev) && LsaEffect(net, ev, net') && Grounded(net) && Settled(net, graph)
    requires AddressesTell(net)
    requires HoldersCovered(net, graph, o, s0) && SendersHold(net, o, s0)
    ensures HoldersCovered(net', graph, o, s0)
  {
    forall u, v | u in net'.sites && u != o && o in net'.sites[u].node.lsas && net'.sites[u].node.lsas[o].sequence > s0
                  && u in graph && v in graph[u] && v != o
      ensures Covered(net', v, o, net'.sites[u].node.lsas[o].sequence)
    {
      if Lookup(net'.sites[u].node.lsas, o) == Lookup(net.sites[u].node.lsas, o) {
        assert Covered(net, v, o, net.sites[u].node.lsas[o].sequence);
        CoveredStays(net, ev, net', v, o, net.sites[u].node.lsas[o].sequence);
      } else if ev.LsaIn? {
        HolderCoveredAfterReceive(net, net', ev, graph, o, s0, u, v);
      } else {
        HolderChangesOnlyOnReceive(net, ev, net', u, o);
      }
    }
  }

  lemma CoveredWhenSame(net: Net, net': Net, v: NodeId, o: NodeId, s: nat)
    requires SameFor(net, net', o) && (forall q <- net.lsaFlight | q.lsa.origin == o :: q in net'.lsaFlight)
    requires v != o && Covered(net, v, o, s)
    ensures Covered(net', v, o, s)
  {
    if Holds(net, v, o, s) {
      assert Lookup(net'.sites[v].node.lsas, o) == Lookup(net.sites[v].node.lsas, o);
    } else {
      var q :| q in net.lsaFlight && Carries(q, v, o, s);
    }
  }

  lemma FloodInvWhenSame(net: Net, net': Net, graph: Graph, o: NodeId, s0: nat)
    requires SameFor(net, net', o) && (forall q <- net.lsaFlight | q.lsa.origin == o :: q in net'.lsaFlight)
    requires FloodInv(net, graph, o, s0) && forall q <- net.lsaLog :: q.from in net.sites
    ensures FloodInv(net', graph, o, s0)
  {
    forall x, v | x in net'.published && x.origin == o && x.sequence > s0 && o in graph && v in graph[o] && v != o
      ensures Covered(net', v, o, x.sequence)
    {
      CoveredWhenSame(net, net', v, o, x.sequence);
    }
    forall u, v | u in net'.sites && u != o && o in net'.sites[u].node.lsas && net'.sites[u].node.lsas[o].sequence > s0
                  && u in graph && v in graph[u] && v != o
      ensures Covered(net', v, o, net'.sites[u].node.lsas[o].sequence)
    {
      assert Lookup(net'.sites[u].node.lsas, o) == Lookup(net.sites[u].node.lsas, o);
      CoveredWhenSame(net, net', v, o, net.sites[u].node.lsas[o].sequence);
    }
    forall q | q in net'.lsaLog && q.lsa.origin == o && q.lsa.sequence > s0 && q.from != o
      ensures Holds(net', q.from, o, q.lsa.sequence)
    {
      assert Lookup(net'.sites[q.from].node.lsas, o) == Lookup(net.sites[q.from].node.lsas, o);
    }
  }

  lemma FloodInvStep(net: Net, ev: Event, graph: Graph, o: NodeId, s0: nat)
    requires Enabled(net, ev) && QuietFor(net, ev, o)
    requires Grounded(net) && Settled(net, graph) && AddressesTell(net) && FloodInv(net, graph, o, s0)
    ensures FloodInv(Next(net, ev), graph, o, s0)
  {
    var net' := Next(net, ev);
    if Quiet(ev) {
      HasLsaEffect(net, ev);
      SendersHoldStep(net, ev, net', o, s0);
      OriginCoveredStep(net, ev, net', graph, o, s0);
      HoldersCoveredStep(net, ev, net', graph, o, s0);
    } else {
      NotQuietIsSame(net, ev, o);
      FloodInvWhenSame(net, net', graph, o, s0);
    }
  }

  lemma {:induction false} FloodInvRun(net: Net, evs: seq<Event>, graph: Graph, o: NodeId, s0: nat)
    requires SettledRun(net, evs, graph, o) && Inv(net) && AddressesTell(net) && FloodInv(net, graph, o, s0)
    ensures Runs(net, evs) && Inv(After(net, evs)) && FloodInv(After(net, evs), graph, o, s0)
    decreases |evs|
  {
    if evs != [] {
      InvStep(net, evs[0]);
      PlacesStay(net, evs[0]);
      FloodInvStep(net, evs[0], graph, o, s0);
      FloodInvRun(Next(net, evs[0]), evs[1..], graph, o, s0);
    }
  }

  lemma PlacesStay(net: Net, ev: Event)
    requires Enabled(net, ev) && AddressesTell(net)
    ensures AddressesTell(Next(net, ev))
  {
    var net' := Next(net, ev);
    if ev.GenerateAt? {
      GenerateFrame(net, ev.u);
    } else if ev.PublishAt? {
      PublishFrame(net, ev.u, ev.lsa);
    } else if ev.LsaIn? {
      LsaFrame(net, ev.q, ev.first);
    } else if ev.CleanAt? {
      CleanFrame(net, ev.u);
    } else if !ev.LoseLsa? {
      LsasKeptOtherwise(net, ev);
    }
    forall u | u in net'.sites ensures u in net.sites && net'.sites[u].place == net.sites[u].place {
      if TouchesLsas(ev) && !ev.LoseLsa? {
        assert SameSession(net.sites[u], net'.sites[u]);
      } else if !ev.LoseLsa? {
        assert SameLsas(net.sites[u], net'.sites[u]);
      }
    }
  }

  /** At the moment the window opens nothing newer than o's current number exists. */
  lemma FloodInvAtStart(net: Net, graph: Graph, o: NodeId)
    requires Grounded(net) && o in net.sites
    ensures FloodInv(net, graph, o, net.sites[o].node.lsaSequence)
  {
    var s0 := net.sites[o].node.lsaSequence;
    assert forall x <- net.published | x.origin == o :: x.sequence <= s0;
    assert SendersHold(net, o, s0);
    assert OriginCovered(net, graph, o, s0);
    assert HoldersCovered(net, graph, o, s0);
  }

  // ----- convergence

  /** Nothing of o numbered above s0 is in flight or waiting to be published. */
  ghost predicate Quiescent(net: Net, o: NodeId, s0: nat)
    requires o in net.sites
  {
    && (forall q <- net.lsaFlight :: !(q.lsa.origin == o && q.lsa.sequence > s0))
    && (forall x <- net.sites[o].drafts :: x.sequence <= s0)
  }

  ghost predicate IsPath(graph: Graph, path: seq<NodeId>) {
    && path != []
    && (forall i | 0 <= i < |path| :: path[i] in graph)
    && (forall i | 0 < i < |path| :: path[i] in graph[path[i - 1]])
  }

  /** v can be reached from o. */
  ghost predicate Reaches(graph: Graph, o: NodeId, v: NodeId) {
    exists path :: IsPath(graph, path) && path[0] == o && path[|path| - 1] == v
  }

  lemma {:induction false} PathHolds(net: Net, graph: Graph, o: NodeId, s0: nat, x: Lsa, path: seq<NodeId>)
    requires FloodInv(net, graph, o, s0) && o in net.sites && Quiescent(net, o, s0)
    requires x in net.published && x.origin == o && x.sequence > s0
    requires IsPath(graph, path) && path[0] == o
    ensures path[|path| - 1] == o || Holds(net, path[|path| - 1], o, x.sequence)
    decreases |path|
  {
    if |path| > 1 {
      var front, v := path[..|path| - 1], path[|path| - 1];
      PathHolds(net, graph, o, s0, x, front);
      var u := front[|front| - 1];
      assert v in graph[u];
      if v != o {
        var s := if u == o then x.sequence else net.sites[u].node.lsas[o].sequence;
        assert Covered(net, v, o, s);
      }
    }
  }

  lemma HeldIsHighest(net: Net, v: NodeId, o: NodeId, x: Lsa)
    requires Grounded(net) && x in net.generated && x.origin == o && x.sequence == net.sites[o].node.lsaSequence
    requires Holds(net, v, o, x.sequence)
    ensures net.sites[v].node.lsas[o] == x
  {
    assert net.sites[v].node.lsas[o] in net.published;
  }

  lemma HighestIsPublished(net: Net, o: NodeId, s0: nat) returns (x: Lsa)
    requires Grounded(net) && o in net.sites && net.sites[o].node.lsaSequence > s0 && Quiescent(net, o, s0)
    ensures x in net.published && x in net.generated && x.origin == o && x.sequence == net.sites[o].node.lsaSequence
    ensures forall y <- net.generated | y.origin == o :: y == x || Newer(x, y)
  {
    assert HighestGenerated(net, o);
    x :| x in net.generated && x.origin == o && x.sequence == net.sites[o].node.lsaSequence;
  }

  /** Convergence.  Over any settled stretch of any run, with packets duplicated and reordered at
      will, stale entries of other origins cleaned up and their packets lost: if o has generated
      since the stretch began and none of its newer advertisements is in flight or unpublished,
      then every other node that o reaches stores o's highest-numbered advertisement. */
  lemma FloodConverges(start: Net, evs: seq<Event>, graph: Graph, o: NodeId)
    requires Reachable(start) && SettledRun(start, evs, graph, o) && AddressesTell(start) && o in start.sites
    requires Runs(start, evs) && o in After(start, evs).sites
    requires After(start, evs).sites[o].node.lsaSequence > start.sites[o].node.lsaSequence
    requires Quiescent(After(start, evs), o, start.sites[o].node.lsaSequence)
    ensures var net := After(start, evs);
      exists x <- net.published ::
        && x.origin == o && x.sequence == net.sites[o].node.lsaSequence
        && (forall y <- net.generated | y.origin == o :: y == x || Newer(x, y))
        && forall v | Reaches(graph, o, v) && v != o :: v in net.sites && Lookup(net.sites[v].node.lsas, o) == Some(x)
  {
    var s0, net := start.sites[o].node.lsaSequence, After(start, evs);
    ReachableInv(start);
    FloodInvAtStart(start, graph, o);
    FloodInvRun(start, evs, graph, o, s0);
    var x := HighestIsPublished(net, o, s0);
    forall v | Reaches(graph, o, v) && v != o ensures v in net.sites && Lookup(net.sites[v].node.lsas, o) == Some(x) {
      var path :| IsPath(graph, path) && path[0] == o && path[|path| - 1] == v;
      PathHolds(net, graph, o, s0, x, path);
      HeldIsHighest(net, v, o, x);
    }
  }

  /** The origin's own entry is a different matter: its number is drawn and its entry stored
      under separate locks, so it is whatever was stored last, which is the newest only if it
      carries the latest number. */
  lemma OwnEntryIsLastStored(net: Net, u: NodeId, x: Lsa)
    requires Reachable(net) && Enabled(net, PublishAt(u, x))
    ensures var net' := Next(net, PublishAt(u, x));
      && u in net'.sites && Lookup(net'.sites[u].node.lsas, u) == Some(x)
      && (x.sequence == net'.sites[u].node.lsaSequence <==> forall y <- net'.generated | y.origin == u :: !Newer(y, x))
  {
    ReachableInv(net);
    PublishHasEffect(net, u, x);
    var net' := NextPublish(net, u, x);
    LatestIffNothingNewer(net, u, x);
    assert net'.generated == net.generated && net'.sites[u].node.lsaSequence == net.sites[u].node.lsaSequence;
  }

  lemma LatestIffNothingNewer(net: Net, u: NodeId, x: Lsa)
    requires NumbersUsed(net) && x in net.generated && x.origin == u
    ensures x.sequence == net.sites[u].node.lsaSequence <==> forall y <- net.generated | y.origin == u :: !Newer(y, x)
  {
    assert HighestGenerated(net, u);
  }

  /** Two overlapping broadcasts can really be stored in the wrong order: whatever has happened so
      far, the older one may be published last and is then the origin's own entry, although the
      newer one has been generated and published. */
  lemma BroadcastsCanOverlap(net: Net, u: NodeId)
    requires Reachable(net) && u in net.sites
    ensures var x1 := Generate(net.sites[u].node, net.now).1;
      var net1 := Next(net, GenerateAt(u));
      && u in net1.sites
      && var x2 := Generate(net1.sites[u].node, net1.now).1;
      var net2 := Next(net1, GenerateAt(u));
      && u in net2.sites && Newer(x2, x1) && Enabled(net2, PublishAt(u, x2))
      && var net3 := Next(net2, PublishAt(u, x2));
      && Enabled(net3, PublishAt(u, x1))
      && var net4 := Next(net3, PublishAt(u, x1));
      && Reachable(net4) && u in net4.sites && Lookup(net4.sites[u].node.lsas, u) == Some(x1) && x2 in net4.published
  {
    ReachableInv(net);
    GenerateHasEffect(net, u);
    MeshHandshake.ReachableStep(net, GenerateAt(u));
    var net1 := NextGenerate(net, u);
    ReachableInv(net1);
    GenerateHasEffect(net1, u);
    MeshHandshake.ReachableStep(net1, GenerateAt(u));
    StoredLast(NextGenerate(net1, u), u, Generate(net.sites[u].node, net.now).1,
        Generate(net1.sites[u].node, net1.now).1);
  }

  lemma StoredLast(net: Net, u: NodeId, x1: Lsa, x2: Lsa)
    requires Reachable(net) && u in net.sites && {x1, x2} <= net.sites[u].drafts && x1 != x2
    ensures Enabled(net, PublishAt(u, x2))
    ensures var net1 := Next(net, PublishAt(u, x2));
      && Enabled(net1, PublishAt(u, x1))
      && var net2 := Next(net1, PublishAt(u, x1));
      && Reachable(net2) && u in net2.sites && Lookup(net2.sites[u].node.lsas, u) == Some(x1) && x2 in net2.published
  {
    assert x1 in net.sites[u].drafts && x2 in net.sites[u].drafts;
    OwnEntryAfterPublish(net, u, x2);
    MeshHandshake.ReachableStep(net, PublishAt(u, x2));
    var net1 := Next(net, PublishAt(u, x2));
    OwnEntryAfterPublish(net1, u, x1);
    MeshHandshake.ReachableStep(net1, PublishAt(u, x1));
  }

  lemma OwnEntryAfterPublish(net: Net, u: NodeId, x: Lsa)
    requires Reachable(net) && u in net.sites && x in net.sites[u].drafts
    ensures var net' := Next(net, PublishAt(u, x));
      && u in net'.sites && Lookup(net'.sites[u].node.lsas, u) == Some(x)
      && net'.sites[u].drafts == net.sites[u].drafts - {x} && net'.published == net.published + {x}
  {
    MeshState.ReachableCoherent(net);
    assert MeshState.CoherentSite(net, u);
    PublishHasEffect(net, u, x);
  }
}
