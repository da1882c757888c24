/** The round-trip statistics of peers in every run (`send_ping`, `handle_pong` in
    crates/node/src/node.rs, `RttStats` in crates/mesh/src/rtt.rs): they are those of the round trips
    counted since the node became a peer, and a round trip is the time from the round that recorded
    the ping to the counting of its pong. */
module MeshRtt {
  import opened Common
  import opened Mesh
  import opened NodeStates
  import opened MeshPings
  import MeshHandshake
  import Rtt

  // ----- the statistics follow the samples

  ghost predicate StatsFollow(s: Site) {
    && s.samples.Keys == s.node.peers.Keys
    && forall p <- s.node.peers ::
         s.node.peers[p].rtt == if s.samples[p] == [] then None else Some(Rtt.StatsOf(s.samples[p]))
  }

  // ----- the times of the records

  /** Every record in the table, and the one of a pong in hand, carries the time of its round. */
  ghost predicate TimesKept(s: Site, now: Instant) {
    && (forall k <- s.node.pings :: k in s.pings.times && s.pings.times[k] == s.node.pings[k])
    && (s.pong.Some? ==> s.pong.value.key in s.pings.times && s.pings.times[s.pong.value.key] == s.pong.value.sent)
    && (forall k <- s.pings.times :: k.1 <= s.node.pingSequence && s.pings.times[k] <= now)
  }

  ghost predicate RttSite(net: Net, u: NodeId)
    requires u in net.sites
  {
    StatsFollow(net.sites[u]) && TimesKept(net.sites[u], net.now)
  }

  ghost predicate RttInv(net: Net) {
    forall u <- net.sites :: RttSite(net, u)
  }

  lemma RttWhenKept(net: Net, net': Net)
    requires RttInv(net) && PeersKept(net, net') && PingsKept(net, net')
    ensures RttInv(net')
  {
    forall u | u in net'.sites ensures RttSite(net', u) {
      assert RttSite(net, u) && SamePeers(net.sites[u], net'.sites[u]) && SamePings(net.sites[u], net'.sites[u]);
    }
  }

  lemma RttAtOneSite(net: Net, net': Net, u: NodeId)
    requires RttInv(net) && u in net.sites && u in net'.sites && net'.now == net.now
    requires net'.sites == net.sites[u := net'.sites[u]] && RttSite(net', u)
    ensures RttInv(net')
  {
    forall v | v in net'.sites ensures RttSite(net', v) {
      assert v != u ==> RttSite(net, v);
    }
  }

  lemma RttAfterHello(net: Net, to: NodeId, from: NodeId)
    requires RttInv(net) && to in net.sites && from in net.sites
    ensures RttInv(NextHello(net, to, from))
  {
    assert RttSite(net, to);
    var place := net.sites[from].place;
    HelloStatistics(net.sites[to].node, from, HelloSource(place), place.port, net.now, net.next);
    RttAtOneSite(net, NextHello(net, to, from), to);
  }

  /** A Hello keeps all statistics and gives a new peer none. */
  lemma HelloStatistics(n: NodeState, from: NodeId, addr: Addr, port: nat, now: Instant, next: nat)
    ensures var n' := ReceiveHello(n, from, addr, port, now, next).0;
      && n.peers.Keys <= n'.peers.Keys <= n.peers.Keys + {from}
      && n'.pings == n.pings && n'.pingSequence == n.pingSequence
      && forall p <- n'.peers :: n'.peers[p].rtt == if p in n.peers then n.peers[p].rtt else None
  {
  }

  lemma RttAfterEvict(net: Net, u: NodeId)
    requires RttInv(net) && u in net.sites && net.sites[u].scan.Some?
    ensures RttInv(NextEvict(net, u))
  {
    assert RttSite(net, u);
    RttAtOneSite(net, NextEvict(net, u), u);
  }

  /** A round stamps the records it makes with the present moment and drops no other stamp. */
  lemma RoundStamps(n: NodeState, now: Instant)
    ensures var n' := PingRound(n, now);
      && n'.peers == n.peers && n'.pingSequence == n.pingSequence + 1
      && forall k <- n'.pings ::
           if k in Pinged(n, now) then n'.pings[k] == now else k in n.pings && n'.pings[k] == n.pings[k]
  {
  }

  lemma RttAfterRound(net: Net, u: NodeId)
    requires RttInv(net) && u in net.sites
    ensures RttInv(NextPing(net, u))
  {
    var s, s' := net.sites[u], NextPing(net, u).sites[u];
    assert RttSite(net, u);
    RoundStamps(s.node, net.now);
    PingedNumbers(FloodTargets(s.node), s.node.pingSequence + 1, net.now);
    assert s'.pings.times == s.pings.times + map k <- Pinged(s.node, net.now) :: net.now;
    RttAtOneSite(net, NextPing(net, u), u);
  }

  lemma RttAfterTake(net: Net, to: NodeId, from: NodeId, sequence: nat)
    requires RttInv(net) && to in net.sites && net.sites[to].pong.None?
    ensures RttInv(NextPong(net, to, from, sequence))
  {
    assert RttSite(net, to);
    if Samples(net.sites[to].node, from, sequence) {
      RttAtOneSite(net, NextPong(net, to, from, sequence), to);
    }
  }

  /** Counting a pong appends the round trip to what the statistics describe. */
  lemma CountAppends(n: NodeState, pong: Pong, now: Instant, h: seq<Rtt.Duration>, x: Rtt.Duration)
    requires pong.key.0 in n.peers && n.peers[pong.key.0].rtt == if h == [] then None else Some(Rtt.StatsOf(h))
    requires pong.sent <= now && x == if now - pong.sent <= Rtt.MAX_NANOS then now - pong.sent else Rtt.MAX_NANOS
    ensures CountPong(n, pong, now).peers[pong.key.0].rtt == Some(Rtt.StatsOf(h + [x]))
  {
    assert (h + [x])[..|h|] == h;
  }

  lemma CountLeavesOthers(n: NodeState, pong: Pong, now: Instant)
    ensures var n' := CountPong(n, pong, now);
      && n'.peers.Keys == n.peers.Keys && n'.pingSequence == n.pingSequence
      && (forall p <- n.peers | p != pong.key.0 :: n'.peers[p] == n.peers[p])
      && (forall k <- n'.pings :: k in n.pings && n'.pings[k] == n.pings[k])
  {
  }

  lemma RttAfterCount(net: Net, u: NodeId)
    requires RttInv(net) && u in net.sites && net.sites[u].pong.Some?
    ensures RttInv(NextCount(net, u))
  {
    var s := net.sites[u];
    var pong := s.pong.value;
    assert RttSite(net, u);
    CountLeavesOthers(s.node, pong, net.now);
    if pong.key.0 in s.node.peers {
      CountAppends(s.node, pong, net.now, s.samples[pong.key.0], RoundTrip(s.pings, pong.key, net.now));
    }
    RttAtOneSite(net, NextCount(net, u), u);
  }

  lemma RttStep(net: Net, ev: Event)
    requires Enabled(net, ev) && RttInv(net)
    ensures RttInv(Next(net, ev))
  {
    match ev {
      case HelloIn(to, from) => RttAfterHello(net, to, from);
      case EvictAt(u) => RttAfterEvict(net, u);
      case PingAt(u) => RttAfterRound(net, u);
      case PongIn(to, from, sequence) => RttAfterTake(net, to, from, sequence);
      case CountAt(u) => RttAfterCount(net, u);
      case ScanAt(u) => RttOtherwise(net, ev);
      case Tick(_) => RttOtherwise(net, ev);
      case HandshakeIn(p, first) => HandshakeFrame(net, p, first); RttWhenKept(net, Next(net, ev));
      case GenerateAt(u) => GenerateFrame(net, u); RttWhenKept(net, Next(net, ev));
      case PublishAt(u, lsa) => PublishFrame(net, u, lsa); RttWhenKept(net, Next(net, ev));
      case LsaIn(q, first) => LsaFrame(net, q, first); RttWhenKept(net, Next(net, ev));
      case CleanAt(u) => CleanFrame(net, u); RttWhenKept(net, Next(net, ev));
      case LoseHandshake(p) => RttOtherwise(net, ev);
      case LoseLsa(q) => RttOtherwise(net, ev);
    }
  }

  lemma RttOtherwise(net: Net, ev: Event)
    requires Enabled(net, ev) && RttInv(net) && (ev.ScanAt? || ev.Tick? || ev.LoseHandshake? || ev.LoseLsa?)
    ensures RttInv(Next(net, ev))
  {
    var net' := Next(net, ev);
    forall u | u in net'.sites ensures RttSite(net', u) {
      assert RttSite(net, u);
    }
  }

  lemma {:induction false} RttRun(net: Net, evs: seq<Event>)
    requires Runs(net, evs) && RttInv(net)
    ensures RttInv(After(net, evs))
    decreases |evs|
  {
    if evs != [] {
      RttStep(net, evs[0]);
      RttRun(Next(net, evs[0]), evs[1..]);
    }
  }

  lemma ReachableRtt(net: Net)
    requires Reachable(net)
    ensures RttInv(net)
  {
    var start, evs :| Initial(start) && Runs(start, evs) && After(start, evs) == net;
    RttRun(start, evs);
  }

  /** In every reachable state the statistics of a peer are those of the list of its samples, if there
      are any: its length, last value, extremes and moving average, as Rtt.StatisticsDescribeHistory
      and Rtt.AverageErrorBound put it. */
  lemma StatisticsAreOfSamples(net: Net, u: NodeId, p: NodeId)
    requires Reachable(net) && u in net.sites && p in net.sites[u].node.peers
    ensures p in net.sites[u].samples
    ensures var h, rtt := net.sites[u].samples[p], net.sites[u].node.peers[p].rtt;
      if h == [] then rtt == None else rtt == Some(Rtt.StatsOf(h)) && Rtt.Describes(rtt.value, h)
  {
    ReachableRtt(net);
    assert RttSite(net, u);
    if net.sites[u].samples[p] != [] {
      Rtt.StatisticsDescribeHistory(net.sites[u].samples[p]);
    }
  }

  // ----- what one sample is

  /** A stamp, once given, stays. */
  lemma StampStep(net: Net, ev: Event, u: NodeId, k: PingKey, t: Instant)
    requires Reachable(net) && Enabled(net, ev) && u in net.sites && Lookup(net.sites[u].pings.times, k) == Some(t)
    ensures u in Next(net, ev).sites && Lookup(Next(net, ev).sites[u].pings.times, k) == Some(t)
  {
    if ev == PingAt(u) {
      ReachableRtt(net);
      assert RttSite(net, u);
      var n := net.sites[u].node;
      PingedNumbers(FloodTargets(n), n.pingSequence + 1, net.now);
      assert k !in Pinged(n, net.now);
    } else if !ev.PingAt? && !ev.PongIn? && !ev.CountAt? {
      PingsKeptOtherwise(net, ev);
      assert SamePings(net.sites[u], Next(net, ev).sites[u]);
    }
  }

  lemma {:induction false} StampRun(net: Net, evs: seq<Event>, u: NodeId, k: PingKey, t: Instant)
    requires Reachable(net) && Runs(net, evs) && u in net.sites && Lookup(net.sites[u].pings.times, k) == Some(t)
    ensures u in After(net, evs).sites && Lookup(After(net, evs).sites[u].pings.times, k) == Some(t)
    decreases |evs|
  {
    if evs != [] {
      StampStep(net, evs[0], u, k, t);
      MeshHandshake.ReachableStep(net, evs[0]);
      StampRun(Next(net, evs[0]), evs[1..], u, k, t);
    }
  }

  /** The time that has passed, as far as a duration can express it. */
  function Passed(from: Instant, to: Instant): Rtt.Duration
    requires from <= to
  {
    if to - from <= Rtt.MAX_NANOS then to - from else Rtt.MAX_NANOS
  }

  /** A ping is recorded in a round at one moment and its pong counted at a later one, with any run in
      between: the sample is the time between the two, and it is appended to the samples of the peer
      and to what its statistics describe. */
  lemma SampleIsRoundTrip(net: Net, u: NodeId, p: NodeId, evs: seq<Event>)
    requires Reachable(net) && u in net.sites && p in FloodTargets(net.sites[u].node)
    requires Runs(Next(net, PingAt(u)), evs) && u in After(Next(net, PingAt(u)), evs).sites
    requires var k, s := (p, net.sites[u].node.pingSequence + 1), After(Next(net, PingAt(u)), evs).sites[u];
      s.pong.Some? && s.pong.value.key == k && p in s.node.peers
    ensures var counting := After(Next(net, PingAt(u)), evs);
      var counted := Next(counting, CountAt(u));
      && net.now <= counting.now && p in counting.sites[u].samples
      && u in counted.sites && p in counted.sites[u].node.peers
      && var h := counting.sites[u].samples[p] + [Passed(net.now, counting.now)];
      && Lookup(counted.sites[u].samples, p) == Some(h)
      && counted.sites[u].node.peers[p].rtt == Some(Rtt.StatsOf(h))
  {
    var k: PingKey := (p, net.sites[u].node.pingSequence + 1);
    var pinged := Next(net, PingAt(u));
    RoundStampsPeer(net, u, p);
    MeshHandshake.ReachableStep(net, PingAt(u));
    StampRun(pinged, evs, u, k, net.now);
    MeshHandshake.ReachableRun(pinged, evs);
    CountedSample(After(pinged, evs), u, k, net.now);
  }

  lemma RoundStampsPeer(net: Net, u: NodeId, p: NodeId)
    requires u in net.sites && p in FloodTargets(net.sites[u].node)
    ensures u in Next(net, PingAt(u)).sites
    ensures Lookup(Next(net, PingAt(u)).sites[u].pings.times, (p, net.sites[u].node.pingSequence + 1)) == Some(net.now)
  {
  }

  lemma CountedAtSite(s: Site, now: Instant, t: Instant)
    requires StatsFollow(s) && TimesKept(s, now) && s.pong.Some? && s.pong.value.key.0 in s.node.peers
    requires Lookup(s.pings.times, s.pong.value.key) == Some(t)
    ensures var p := s.pong.value.key.0;
      && t <= now && p in s.samples && RoundTrip(s.pings, s.pong.value.key, now) == Passed(t, now)
      && p in CountPong(s.node, s.pong.value, now).peers
      && CountPong(s.node, s.pong.value, now).peers[p].rtt == Some(Rtt.StatsOf(s.samples[p] + [Passed(t, now)]))
  {
    var p := s.pong.value.key.0;
    assert s.pong.value.sent == t;
    CountAppends(s.node, s.pong.value, now, s.samples[p], Passed(t, now));
  }

  lemma CountAtPeer(net: Net, u: NodeId)
    requires u in net.sites && net.sites[u].pong.Some?
    requires var p := net.sites[u].pong.value.key.0; p in net.sites[u].node.peers && p in net.sites[u].samples
    ensures u in Next(net, CountAt(u)).sites
    ensures var s, s' := net.sites[u], Next(net, CountAt(u)).sites[u];
      var p := s.pong.value.key.0;
      && s'.node == CountPong(s.node, s.pong.value, net.now)
      && Lookup(s'.samples, p) == Some(s.samples[p] + [RoundTrip(s.pings, s.pong.value.key, net.now)])
  {
  }

  lemma CountedSample(net: Net, u: NodeId, k: PingKey, t: Instant)
    requires Reachable(net) && u in net.sites && net.sites[u].pong.Some? && net.sites[u].pong.value.key == k
    requires k.0 in net.sites[u].node.peers && Lookup(net.sites[u].pings.times, k) == Some(t)
    ensures t <= net.now && k.0 in net.sites[u].samples
    ensures var counted := Next(net, CountAt(u));
      var h := net.sites[u].samples[k.0] + [Passed(t, net.now)];
      && u in counted.sites && k.0 in counted.sites[u].node.peers
      && Lookup(counted.sites[u].samples, k.0) == Some(h)
      && counted.sites[u].node.peers[k.0].rtt == Some(Rtt.StatsOf(h))
  {
    assert StatsFollow(net.sites[u]) && TimesKept(net.sites[u], net.now) by {
      ReachableRtt(net);
      assert RttSite(net, u);
    }
    CountedAtSite(net.sites[u], net.now, t);
    CountAtPeer(net, u);
  }
}
