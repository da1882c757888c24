/** Hearing of peers and losing them (`receive`, `remove_stale_peers` in crates/node/src/node.rs;
    `PeerInfo::update` in crates/mesh/src/peer.rs): who says Hello is kept, who is silent for over a
    minute is removed. */
module MeshPeers {
  import opened Common
  import opened Mesh
  import opened NodeStates
  import opened Session
  import MeshHandshake
  import MeshState

  // ----- a Hello

  /** A Hello from a node with which there is a session records the present moment, the address it
      came from and the port it names, and keeps the statistics; it touches nothing else. */
  lemma HelloRefreshesPeer(net: Net, u: NodeId, p: NodeId)
    requires Reachable(net) && u in net.sites && p in net.sites && p != u && p in net.sites[u].node.sessions
    ensures u in Next(net, HelloIn(u, p)).sites
    ensures var n, n', place := net.sites[u].node, Next(net, HelloIn(u, p)).sites[u].node, net.sites[p].place;
      && n'.peers.Keys == n.peers.Keys + {p}
      && n'.peers[p] ==
           PeerInfo(net.now, Addr(place.host, 9999), place.port, if p in n.peers then n.peers[p].rtt else None)
      && (forall q <- n.peers | q != p :: n'.peers[q] == n.peers[q])
      && n'.sessions == n.sessions
  {
    MeshState.ReachableCoherent(net);
    assert MeshState.CoherentSite(net, u);
  }

  /** A Hello from a node with which there is no session leaves the peers alone. */
  lemma FirstHelloAddsNoPeer(net: Net, u: NodeId, p: NodeId)
    requires Reachable(net) && u in net.sites && p in net.sites && p != u && p !in net.sites[u].node.sessions
    ensures u in Next(net, HelloIn(u, p)).sites
    ensures Next(net, HelloIn(u, p)).sites[u].node.peers == net.sites[u].node.peers
    ensures p in Next(net, HelloIn(u, p)).sites[u].node.sessions
  {
    MeshState.ReachableCoherent(net);
    assert MeshState.CoherentSite(net, u);
  }

  /** If p is a peer of u, it was last seen at t or later. */
  ghost predicate SeenSince(net: Net, u: NodeId, p: NodeId, t: Instant) {
    u in net.sites && (p in net.sites[u].node.peers ==> net.sites[u].node.peers[p].lastSeen >= t)
  }

  lemma PeersKeptOtherwise(net: Net, ev: Event)
    requires Enabled(net, ev) && !ev.HelloIn? && !ev.EvictAt? && !ev.CountAt? && !ev.ScanAt? && !ev.Tick?
    ensures PeersKept(net, Next(net, ev))
  {
    if ev.HandshakeIn? {
      HandshakeFrame(net, ev.p, ev.first);
    } else if ev.GenerateAt? {
      GenerateFrame(net, ev.u);
    } else if ev.PublishAt? {
      PublishFrame(net, ev.u, ev.lsa);
    } else if ev.LsaIn? {
      LsaFrame(net, ev.q, ev.first);
    } else if ev.CleanAt? {
      CleanFrame(net, ev.u);
    } else if ev.PingAt? {
      PingFrame(net, ev.u);
    } else if ev.PongIn? {
      PongFrame(net, ev.to, ev.from, ev.sequence);
    }
  }

  lemma SeenAfterCount(net: Net, v: NodeId, u: NodeId, p: NodeId, t: Instant)
    requires v in net.sites && net.sites[v].pong.Some? && SeenSince(net, u, p, t)
    ensures SeenSince(NextCount(net, v), u, p, t)
  {
    MeshState.CountedPeers(net.sites[v].node, net.sites[v].pong.value, net.now);
  }

  lemma SeenAfterHello(net: Net, to: NodeId, from: NodeId, u: NodeId, p: NodeId, t: Instant)
    requires to in net.sites && from in net.sites && SeenSince(net, u, p, t) && t <= net.now
    ensures SeenSince(NextHello(net, to, from), u, p, t)
  {
    var place := net.sites[from].place;
    MeshState.HelloPeers(net.sites[to].node, from, HelloSource(place), place.port, net.now, net.next);
  }

  lemma SeenStep(net: Net, ev: Event, u: NodeId, p: NodeId, t: Instant)
    requires Enabled(net, ev) && SeenSince(net, u, p, t) && t <= net.now
    ensures SeenSince(Next(net, ev), u, p, t) && net.now <= Next(net, ev).now
  {
    if ev.HelloIn? {
      SeenAfterHello(net, ev.to, ev.from, u, p, t);
    } else if ev.CountAt? {
      SeenAfterCount(net, ev.u, u, p, t);
    } else if !ev.EvictAt? && !ev.ScanAt? && !ev.Tick? {
      PeersKeptOtherwise(net, ev);
      assert SamePeers(net.sites[u], Next(net, ev).sites[u]);
    }
  }

  lemma {:induction false} SeenRun(net: Net, evs: seq<Event>, u: NodeId, p: NodeId, t: Instant)
    requires Runs(net, evs) && SeenSince(net, u, p, t) && t <= net.now
    ensures SeenSince(After(net, evs), u, p, t)
    decreases |evs|
  {
    if evs != [] {
      SeenStep(net, evs[0], u, p, t);
      SeenRun(Next(net, evs[0]), evs[1..], u, p, t);
    }
  }

  // ----- a scan

  /** A scan finds exactly the peers last seen more than a minute ago. */
  lemma ScanIsExact(net: Net, u: NodeId)
    requires Reachable(net) && u in net.sites
    ensures u in Next(net, ScanAt(u)).sites && Next(net, ScanAt(u)).sites[u].scan.Some?
    ensures var scan := Next(net, ScanAt(u)).sites[u].scan.value;
      && scan.at == net.now
      && forall p :: p in scan.stale <==>
           p in net.sites[u].node.peers && net.now - net.sites[u].node.peers[p].lastSeen > 60_000_000_000
  {
    MeshState.ReachableCoherent(net);
    assert MeshState.CoherentSite(net, u);
  }

  lemma ScanSpares(net: Net, u: NodeId, p: NodeId, t: Instant)
    requires Reachable(net) && SeenSince(net, u, p, t) && net.now <= t + 60_000_000_000
    ensures p !in Next(net, ScanAt(u)).sites[u].scan.value.stale
  {
    ScanIsExact(net, u);
  }

  /** Whoever has said Hello is safe for a minute: no scan in that time finds it, whatever else
      happens, be it removed and heard again in between. */
  lemma HeardPeerIsNotScanned(net: Net, u: NodeId, p: NodeId, evs: seq<Event>)
    requires Reachable(net) && u in net.sites && p in net.sites && p != u && p in net.sites[u].node.sessions
    requires Runs(Next(net, HelloIn(u, p)), evs)
    requires After(Next(net, HelloIn(u, p)), evs).now <= net.now + 60_000_000_000
    ensures var later := After(Next(net, HelloIn(u, p)), evs);
      u in later.sites && p !in Next(later, ScanAt(u)).sites[u].scan.value.stale
  {
    var heard := Next(net, HelloIn(u, p));
    HelloRefreshesPeer(net, u, p);
    MeshHandshake.ReachableStep(net, HelloIn(u, p));
    SeenRun(heard, evs, u, p, net.now);
    MeshHandshake.ReachableRun(heard, evs);
    ScanSpares(After(heard, evs), u, p, net.now);
  }

  // ----- removal

  predicate RemovesAt(ev: Event, u: NodeId) { ev == ScanAt(u) || ev == EvictAt(u) }

  lemma ScanKeptOtherwise(net: Net, ev: Event, u: NodeId)
    requires Enabled(net, ev) && u in net.sites && !RemovesAt(ev, u)
    ensures u in Next(net, ev).sites && Next(net, ev).sites[u].scan == net.sites[u].scan
  {
    if !ev.HelloIn? && !ev.EvictAt? && !ev.CountAt? && !ev.ScanAt? && !ev.Tick? {
      PeersKeptOtherwise(net, ev);
      assert SamePeers(net.sites[u], Next(net, ev).sites[u]);
    }
  }

  lemma {:induction false} ScanKeptRun(net: Net, evs: seq<Event>, u: NodeId)
    requires Runs(net, evs) && u in net.sites && forall ev <- evs :: !RemovesAt(ev, u)
    ensures u in After(net, evs).sites && After(net, evs).sites[u].scan == net.sites[u].scan
    decreases |evs|
  {
    if evs != [] {
      ScanKeptOtherwise(net, evs[0], u);
      ScanKeptRun(Next(net, evs[0]), evs[1..], u);
    }
  }

  /** A peer last seen more than a minute before a scan is gone, peer entry and session, right after
      the removal that follows, whatever happens between the two lock sections. */
  lemma SilentPeerIsRemoved(net: Net, u: NodeId, p: NodeId, evs: seq<Event>)
    requires Reachable(net) && u in net.sites && p in net.sites[u].node.peers
    requires net.now - net.sites[u].node.peers[p].lastSeen > 60_000_000_000
    requires Runs(Next(net, ScanAt(u)), evs) && forall ev <- evs :: !RemovesAt(ev, u)
    ensures Enabled(After(Next(net, ScanAt(u)), evs), EvictAt(u))
    ensures var removed := Next(After(Next(net, ScanAt(u)), evs), EvictAt(u));
      && u in removed.sites
      && p !in removed.sites[u].node.peers && p !in removed.sites[u].node.sessions
  {
    ScanIsExact(net, u);
    ScanKeptRun(Next(net, ScanAt(u)), evs, u);
  }

  // ----- a peer that keeps saying Hello

  /** No scan of u comes more than a minute after the last Hello it heard from p, the latest so far
      at time `heard`. */
  ghost predicate KeepsHelloing(net: Net, evs: seq<Event>, u: NodeId, p: NodeId, heard: Instant)
    decreases |evs|
  {
    evs == []
    || (Enabled(net, evs[0])
        && (evs[0] == ScanAt(u) ==> net.now <= heard + 60_000_000_000)
        && KeepsHelloing(Next(net, evs[0]), evs[1..], u, p, if evs[0] == HelloIn(u, p) then net.now else heard))
  }

  /** p has a session, was seen at its last Hello, and is in no scan. */
  ghost predicate Safe(net: Net, u: NodeId, p: NodeId, heard: Instant) {
    && SeenSince(net, u, p, heard) && heard <= net.now && p in net.sites[u].node.sessions
    && (net.sites[u].scan.Some? ==> p !in net.sites[u].scan.value.stale)
  }

  lemma SessionStays(net: Net, ev: Event, u: NodeId, p: NodeId)
    requires Reachable(net) && Enabled(net, ev) && u in net.sites && p in net.sites[u].node.sessions
    requires ev == EvictAt(u) ==> p !in net.sites[u].scan.value.stale
    ensures u in Next(net, ev).sites && p in Next(net, ev).sites[u].node.sessions
  {
    assert MeshHandshake.KnownNodes(net) by {
      MeshHandshake.ReachableHandshakeInv(net);
    }
    MeshHandshake.StepHasEffect(net, ev);
    MeshHandshake.SessionLeftOnlyByRemoval(net, ev, Next(net, ev), u, p);
  }

  lemma SafeStep(net: Net, ev: Event, u: NodeId, p: NodeId, heard: Instant)
    requires Reachable(net) && Enabled(net, ev) && p in net.sites && p != u && Safe(net, u, p, heard)
    requires ev == ScanAt(u) ==> net.now <= heard + 60_000_000_000
    ensures Safe(Next(net, ev), u, p, if ev == HelloIn(u, p) then net.now else heard)
  {
    SessionStays(net, ev, u, p);
    SeenStep(net, ev, u, p, heard);
    if ev == HelloIn(u, p) {
      HelloRefreshesPeer(net, u, p);
    }
    if ev == ScanAt(u) {
      ScanSpares(net, u, p, heard);
    } else if ev != EvictAt(u) {
      ScanKeptOtherwise(net, ev, u);
    }
  }

  /** A peer that says Hello often enough is never evicted. */
  lemma {:induction false} HelloingPeerIsNeverEvicted(net: Net, evs: seq<Event>, u: NodeId, p: NodeId, heard: Instant)
    requires Reachable(net) && Runs(net, evs) && p in net.sites && p != u
    requires Safe(net, u, p, heard) && KeepsHelloing(net, evs, u, p, heard)
    ensures MeshHandshake.NeverEvicts(net, evs, u, p)
    decreases |evs|
  {
    if evs != [] {
      var next := Next(net, evs[0]);
      SafeStep(net, evs[0], u, p, heard);
      MeshHandshake.ReachableStep(net, evs[0]);
      SitesStay(net, evs[0], p);
      HelloingPeerIsNeverEvicted(next, evs[1..], u, p, if evs[0] == HelloIn(u, p) then net.now else heard);
    }
  }

  lemma SitesStay(net: Net, ev: Event, p: NodeId)
    requires Reachable(net) && Enabled(net, ev) && p in net.sites
    ensures p in Next(net, ev).sites
  {
  }

  /** So a session stuck in `Transitioning` with a peer that keeps saying Hello stays stuck: no event
      of such a run brings it back. */
  lemma HelloingPeerStaysWedged(net: Net, evs: seq<Event>, u: NodeId, p: NodeId, heard: Instant)
    requires Reachable(net) && Runs(net, evs) && p in net.sites && p != u
    requires Safe(net, u, p, heard) && KeepsHelloing(net, evs, u, p, heard)
    requires View(net, u, p) == Some(Transitioning)
    ensures u in After(net, evs).sites && View(After(net, evs), u, p) == Some(Transitioning)
  {
    HelloingPeerIsNeverEvicted(net, evs, u, p, heard);
    MeshHandshake.WedgedForGood(net, evs, u, p);
  }
}
