/** What every run keeps true of the peer, session and ping tables of each node. */
module MeshState {
  import opened Common
  import opened Mesh
  import opened NodeStates
  import Noise
  import Session

  // ----- peers and sessions

  /** The peer table of one node: every peer has a session and is recorded at the addresses it
      really uses; a peer in the current scan was silent for over 60 s when it was scanned,
      unless it has said Hello since. */
  ghost predicate CoherentSite(net: Net, u: NodeId)
    requires u in net.sites
  {
    var site := net.sites[u];
    && site.node.id == u
    && site.node.peers.Keys <= site.node.sessions.Keys
    && site.node.peers.Keys <= net.sites.Keys - {u}
    && (forall p <- site.node.peers ::
          var info := site.node.peers[p];
          && info.addr == HelloSource(net.sites[p].place) && info.port == net.sites[p].place.port
          && info.lastSeen <= net.now)
    && (site.scan.Some? ==>
          && site.scan.value.at <= net.now
          && forall p <- site.node.peers | p in site.scan.value.stale ::
               site.node.peers[p].lastSeen >= site.scan.value.at || Silent(site.node.peers[p], site.scan.value.at))
  }

  ghost predicate Coherent(net: Net) {
    forall u <- net.sites :: CoherentSite(net, u)
  }

  /** What of a network the coherence of its sites depends on besides the site itself. */
  ghost predicate SamePlaces(net: Net, net': Net) {
    && net'.sites.Keys == net.sites.Keys && net'.now >= net.now
    && forall u <- net.sites :: net'.sites[u].place == net.sites[u].place
  }

  lemma CoherenceAtOneSite(net: Net, net': Net, u: NodeId)
    requires Coherent(net) && u in net.sites && SamePlaces(net, net')
    requires forall v <- net.sites | v != u :: net'.sites[v] == net.sites[v]
    requires CoherentSite(net', u)
    ensures Coherent(net')
  {
    forall v | v in net'.sites ensures CoherentSite(net', v) {
      assert CoherentSite(net, v);
    }
  }

  lemma CoherenceWhenKept(net: Net, net': Net)
    requires Coherent(net) && PeersKept(net, net') && SessionsKept(net, net')
    ensures Coherent(net')
  {
    forall u | u in net'.sites ensures CoherentSite(net', u) {
      assert CoherentSite(net, u);
      assert SameSession(net.sites[u], net'.sites[u]) && SamePeers(net.sites[u], net'.sites[u]);
    }
  }

  lemma HelloPeers(n: NodeState, from: NodeId, addr: Addr, port: nat, now: Instant, next: nat)
    ensures var n' := ReceiveHello(n, from, addr, port, now, next).0;
      && n'.id == n.id
      && n.sessions.Keys <= n'.sessions.Keys
      && n'.peers.Keys == n.peers.Keys + (if from != n.id && from in n.sessions then {from} else {})
      && (forall p <- n'.peers | p != from || n'.peers == n.peers :: n'.peers[p] == n.peers[p])
      && (n'.peers != n.peers ==> var i := n'.peers[from]; (i.lastSeen, i.addr, i.port) == (now, addr, port))
  {
  }

  lemma HelloCoherent(net: Net, to: NodeId, from: NodeId)
    requires Coherent(net) && to in net.sites && from in net.sites
    ensures Coherent(NextHello(net, to, from))
  {
    var net' := NextHello(net, to, from);
    var place := net.sites[from].place;
    OneSite(net, to, net'.sites[to], net');
    assert CoherentSite(net, to);
    HelloPeers(net.sites[to].node, from, HelloSource(place), place.port, net.now, net.next);
    CoherenceAtOneSite(net, net', to);
  }

  lemma HandshakeCoherent(net: Net, p: Session.Packet, first: bool)
    requires Coherent(net) && p.to in net.sites
    ensures Coherent(NextHandshake(net, p, first))
  {
    var net' := NextHandshake(net, p, first);
    OneSite(net, p.to, net'.sites[p.to], net');
    assert CoherentSite(net, p.to);
    SessionsOnlyGrow(net.sites[p.to].node, p.from, p.msg, net.next);
    CoherenceAtOneSite(net, net', p.to);
  }

  lemma SessionsOnlyGrow(n: NodeState, from: NodeId, m: Noise.Message, next: nat)
    ensures n.sessions.Keys <= ReceiveHandshake(n, from, m, next).0.sessions.Keys
  {
  }

  lemma ScanCoherent(net: Net, u: NodeId)
    requires Coherent(net) && u in net.sites
    ensures Coherent(NextScan(net, u))
  {
    var net' := NextScan(net, u);
    OneSite(net, u, net'.sites[u], net');
    assert CoherentSite(net, u);
    CoherenceAtOneSite(net, net', u);
  }

  lemma EvictCoherent(net: Net, u: NodeId)
    requires Coherent(net) && u in net.sites && net.sites[u].scan.Some?
    ensures Coherent(NextEvict(net, u))
  {
    var net' := NextEvict(net, u);
    OneSite(net, u, net'.sites[u], net');
    assert CoherentSite(net, u);
    CoherenceAtOneSite(net, net', u);
  }

  /** Counting a pong changes no more of a peer than its statistics. */
  lemma CountedPeers(n: NodeState, pong: Pong, now: Instant)
    ensures var n' := CountPong(n, pong, now);
      && n'.id == n.id && n'.sessions == n.sessions && n'.peers.Keys == n.peers.Keys
      && forall p <- n.peers ::
           (n'.peers[p].lastSeen, n'.peers[p].addr, n'.peers[p].port) ==
               (n.peers[p].lastSeen, n.peers[p].addr, n.peers[p].port)
  {
  }

  lemma CountCoherent(net: Net, u: NodeId)
    requires Coherent(net) && u in net.sites && net.sites[u].pong.Some?
    ensures Coherent(NextCount(net, u))
  {
    var net' := NextCount(net, u);
    OneSite(net, u, net'.sites[u], net');
    assert CoherentSite(net, u);
    CountedPeers(net.sites[u].node, net.sites[u].pong.value, net.now);
    CoherenceAtOneSite(net, net', u);
  }

  lemma TickCoherent(net: Net, d: nat)
    requires Coherent(net)
    ensures Coherent(net.(now := net.now + d))
  {
    forall u | u in net.sites ensures CoherentSite(net.(now := net.now + d), u) {
      assert CoherentSite(net, u);
    }
  }

  lemma CoherentStep(net: Net, ev: Event)
    requires Enabled(net, ev) && Coherent(net)
    ensures Coherent(Next(net, ev))
  {
    match ev {
      case Tick(d) => TickCoherent(net, d);
      case HelloIn(to, from) => HelloCoherent(net, to, from);
      case HandshakeIn(p, first) => HandshakeCoherent(net, p, first);
      case ScanAt(u) => ScanCoherent(net, u);
      case EvictAt(u) => EvictCoherent(net, u);
      case PongIn(to, from, sequence) => PongFrame(net, to, from, sequence); CoherenceWhenKept(net, Next(net, ev));
      case CountAt(u) => CountCoherent(net, u);
      case GenerateAt(u) => GenerateFrame(net, u); CoherenceWhenKept(net, Next(net, ev));
      case PublishAt(u, lsa) => PublishFrame(net, u, lsa); CoherenceWhenKept(net, Next(net, ev));
      case LsaIn(q, first) => LsaFrame(net, q, first); CoherenceWhenKept(net, Next(net, ev));
      case CleanAt(u) => CleanFrame(net, u); CoherenceWhenKept(net, Next(net, ev));
      case PingAt(u) => PingFrame(net, u); CoherenceWhenKept(net, Next(net, ev));
      case LoseHandshake(p) => assert Next(net, ev).sites == net.sites;
      case LoseLsa(q) => assert Next(net, ev).sites == net.sites;
    }
  }

  lemma {:induction false} CoherentRun(net: Net, evs: seq<Event>)
    requires Runs(net, evs) && Coherent(net)
    ensures Coherent(After(net, evs))
    decreases |evs|
  {
    if evs != [] {
      CoherentStep(net, evs[0]);
      CoherentRun(Next(net, evs[0]), evs[1..]);
    }
  }

  lemma ReachableCoherent(net: Net)
    requires Reachable(net)
    ensures Coherent(net)
  {
    var start, evs :| Initial(start) && Runs(start, evs) && After(start, evs) == net;
    CoherentRun(start, evs);
  }

  /** In every reachable state every peer has a session, so the targets of floods and pings are
      exactly the advertised neighbours that have said Hello, and they are addressed correctly. */
  lemma PeersHaveSessions(net: Net, u: NodeId)
    requires Reachable(net) && u in net.sites
    ensures var n := net.sites[u].node;
      && n.peers.Keys <= n.sessions.Keys && u !in n.peers
      && FloodTargets(n) == EstablishedNeighbors(n) * n.peers.Keys
      && n.peers.Keys <= net.sites.Keys
      && forall p <- n.peers ::
          n.peers[p].addr == HelloSource(net.sites[p].place) && n.peers[p].port == net.sites[p].place.port
  {
    ReachableCoherent(net);
    assert CoherentSite(net, u);
  }

  /** Eviction takes peer and session together, and spares everyone outside the scan.  A peer it
      takes had been silent for over 60 s when it was scanned or has said Hello since; in
      particular one that is no longer silent is taken exactly because the Hello came after
      the scan. */
  lemma EvictedWereSilentAtScan(net: Net, u: NodeId, p: NodeId)
    requires Reachable(net) && Enabled(net, EvictAt(u)) && p in net.sites[u].node.peers
    ensures var n, n' := net.sites[u].node, Next(net, EvictAt(u)).sites[u].node;
      var scan := net.sites[u].scan.value;
      && (p in scan.stale ==> p !in n'.peers && p !in n'.sessions)
      && (p !in scan.stale ==>
          p in n'.peers && n'.peers[p] == n.peers[p] && Lookup(n'.sessions, p) == Lookup(n.sessions, p))
      && (p in scan.stale && n.peers[p].lastSeen < scan.at ==>
          Silent(n.peers[p], scan.at) && Silent(n.peers[p], net.now))
      && (p in scan.stale && !Silent(n.peers[p], net.now) ==> n.peers[p].lastSeen >= scan.at)
  {
    ReachableCoherent(net);
    assert CoherentSite(net, u);
  }
}
