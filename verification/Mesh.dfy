/** N mesh nodes and the network between them, as one deterministic step function over events.

    A message handler or a timer body is one event, except that `broadcast_lsa`,
    `remove_stale_peers` and `handle_pong` are split where they release their locks.  Handshake and LinkState
    packets are kept twice: in a log of everything ever sent, from which the network may
    deliver any packet any number of times in any order, and in a multiset of first copies
    still in flight, which only delivery and loss consume. */
module Mesh {
  import opened Common
  import opened LinkState
  import opened Noise
  import opened NodeStates
  import opened Session
  import Rtt

  const MULTICAST_PORT := 9999

  /** Where a node runs: its host address and its unicast port. */
  datatype Place = Place(host: nat, port: nat)

  /** Hellos leave from the multicast socket, everything else from the unicast socket. */
  function HelloSource(p: Place): Addr { Addr(p.host, MULTICAST_PORT) }

  function UnicastSource(p: Place): Addr { Addr(p.host, p.port) }

  datatype LsaPacket = LsaPacket(from: NodeId, to: NodeId, lsa: Lsa)

  /** The peers found stale by the first lock section of `remove_stale_peers`. */
  datatype Scan = Scan(at: Instant, stale: set<NodeId>)

  /** A step in the life of the ping table: a round with the records it purged, a pong taken, and
      a taken pong counted, with a sample if its peer was still there. */
  datatype PingStep = Round(gone: set<PingKey>) | Take(key: PingKey) | Count(key: PingKey, sampled: bool)

  /** What has happened to ping records so far, and when each was made. */
  datatype PingTrace = PingTrace(recorded: multiset<PingKey>, sampled: multiset<PingKey>, purged: multiset<PingKey>,
                                 story: seq<PingStep>, times: map<PingKey, Instant>)

  /** The time since the ping of k was recorded, as far as a duration can express it. */
  function RoundTrip(t: PingTrace, k: PingKey, now: Instant): Rtt.Duration {
    if k !in t.times || now < t.times[k] then 0
    else if now - t.times[k] <= Rtt.MAX_NANOS then now - t.times[k]
    else Rtt.MAX_NANOS
  }

  /** A node, the local variables of its running tasks, and its history. */
  datatype Site = Site(
    node: NodeState,
    place: Place,
    drafts: set<Lsa>,               // generated, not yet stored and sent
    scan: Option<Scan>,
    pong: Option<Pong>,             // taken, not yet counted
    due: bool,                      // a broadcast is owed since sessions changed
    samples: map<NodeId, seq<Rtt.Duration>>,  // round trips counted for each peer since it became one
    accepted: multiset<Lsa>,        // every acceptance by handle_lsa
    removals: multiset<NodeId>,     // every stale removal
    pings: PingTrace)

  datatype Net = Net(
    sites: map<NodeId, Site>,
    log: seq<Packet>,
    flight: multiset<Packet>,
    lsaLog: set<LsaPacket>,
    lsaFlight: multiset<LsaPacket>,
    generated: set<Lsa>,
    published: set<Lsa>,
    sends: multiset<Lsa>,           // copies of each advertisement ever sent
    next: Ephemeral,
    now: Instant)

  datatype Event =
    | Tick(d: nat)
    | HelloIn(to: NodeId, from: NodeId)
    | HandshakeIn(p: Packet, first: bool)
    | LoseHandshake(p: Packet)
    | GenerateAt(u: NodeId)
    | PublishAt(u: NodeId, lsa: Lsa)
    | LsaIn(q: LsaPacket, first: bool)
    | LoseLsa(q: LsaPacket)
    | CleanAt(u: NodeId)
    | ScanAt(u: NodeId)
    | EvictAt(u: NodeId)
    | PingAt(u: NodeId)
    | PongIn(to: NodeId, from: NodeId, sequence: nat)
    | CountAt(u: NodeId)

  /** The network starts with idle nodes at distinct ids. */
  ghost predicate Initial(net: Net) {
    && (forall u <- net.sites ::
          net.sites[u] == Site(NodeState(u, map[], map[], map[], map[], 0, 0), net.sites[u].place,
                               {}, None, None, false, map[], multiset{}, multiset{},
                               PingTrace(multiset{}, multiset{}, multiset{}, [], map[])))
    && net.log == [] && net.flight == multiset{}
    && net.lsaLog == {} && net.lsaFlight == multiset{}
    && net.generated == {} && net.published == {} && net.sends == multiset{}
  }

  predicate Enabled(net: Net, ev: Event) {
    match ev
    case Tick(_) => true
    case HelloIn(to, from) => to in net.sites && from in net.sites
    case HandshakeIn(p, first) => p.to in net.sites && p in net.log && (first ==> p in net.flight)
    case LoseHandshake(p) => p in net.flight
    case GenerateAt(u) => u in net.sites
    case PublishAt(u, lsa) => u in net.sites && lsa in net.sites[u].drafts
    case LsaIn(q, first) => q.to in net.sites && q.from in net.sites && q in net.lsaLog &&
        (first ==> q in net.lsaFlight)
    case LoseLsa(q) => q in net.lsaFlight
    case CleanAt(u) => u in net.sites
    case ScanAt(u) => u in net.sites
    case EvictAt(u) => u in net.sites && net.sites[u].scan.Some?
    case PingAt(u) => u in net.sites
    case PongIn(to, _, _) => to in net.sites && net.sites[to].pong.None?
    case CountAt(u) => u in net.sites && net.sites[u].pong.Some?
  }

  function Next(net: Net, ev: Event): Net
    requires Enabled(net, ev)
  {
    match ev
    case Tick(d) => net.(now := net.now + d)
    case HelloIn(to, from) => NextHello(net, to, from)
    case HandshakeIn(p, first) => NextHandshake(net, p, first)
    case LoseHandshake(p) => net.(flight := net.flight - multiset{p})
    case GenerateAt(u) => NextGenerate(net, u)
    case PublishAt(u, lsa) => NextPublish(net, u, lsa)
    case LsaIn(q, first) => NextLsa(net, q, first)
    case LoseLsa(q) => net.(lsaFlight := net.lsaFlight - multiset{q})
    case CleanAt(u) => NextClean(net, u)
    case ScanAt(u) => NextScan(net, u)
    case EvictAt(u) => NextEvict(net, u)
    case PingAt(u) => NextPing(net, u)
    case PongIn(to, from, sequence) => NextPong(net, to, from, sequence)
    case CountAt(u) => NextCount(net, u)
  }

  function WithSite(net: Net, u: NodeId, site: Site): Net {
    net.(sites := net.sites[u := site])
  }

  function Flown(flight: multiset<Packet>, from: NodeId, to: NodeId, reply: Option<Message>): multiset<Packet> {
    if reply.None? then flight else flight + multiset{Packet(from, to, reply.value)}
  }

  /** A node that becomes a peer has no samples yet. */
  function WithPeer(samples: map<NodeId, seq<Rtt.Duration>>, before: NodeState, after: NodeState, p: NodeId)
    : map<NodeId, seq<Rtt.Duration>>
  {
    if p in after.peers && p !in before.peers then samples[p := []] else samples
  }

  function NextHello(net: Net, to: NodeId, from: NodeId): Net
    requires to in net.sites && from in net.sites
  {
    var site, place := net.sites[to], net.sites[from].place;
    var (node, reply) := ReceiveHello(site.node, from, HelloSource(place), place.port, net.now, net.next);
    WithSite(net, to, site.(node := node, samples := WithPeer(site.samples, site.node, node, from))).(
      log := Logged(net.log, to, from, reply),
      flight := Flown(net.flight, to, from, reply),
      next := net.next + 1)
  }

  function NextHandshake(net: Net, p: Packet, first: bool): Net
    requires p.to in net.sites
  {
    var site := net.sites[p.to];
    var (node, reply, broadcastDue) := ReceiveHandshake(site.node, p.from, p.msg, net.next);
    var flight := if first then net.flight - multiset{p} else net.flight;
    WithSite(net, p.to, site.(node := node, due := site.due || broadcastDue)).(
      log := Logged(net.log, p.to, p.from, reply),
      flight := Flown(flight, p.to, p.from, reply),
      next := net.next + 1)
  }

  function NextGenerate(net: Net, u: NodeId): Net
    requires u in net.sites
  {
    var site := net.sites[u];
    var (node, lsa) := Generate(site.node, net.now);
    WithSite(net, u, site.(node := node, drafts := site.drafts + {lsa}, due := false)).(
      generated := net.generated + {lsa})
  }

  /** The copies of one advertisement leaving u. */
  function Spread(u: NodeId, targets: set<NodeId>, lsa: Lsa): set<LsaPacket> {
    set p <- targets :: LsaPacket(u, p, lsa)
  }

  function Sending(net: Net, u: NodeId, targets: set<NodeId>, lsa: Lsa): Net {
    net.(lsaLog := net.lsaLog + Spread(u, targets, lsa),
         lsaFlight := net.lsaFlight + multiset(Spread(u, targets, lsa)),
         sends := net.sends[lsa := net.sends[lsa] + |targets|])
  }

  function NextPublish(net: Net, u: NodeId, lsa: Lsa): Net
    requires u in net.sites
  {
    var site := net.sites[u];
    var (node, targets) := Publish(site.node, lsa);
    Sending(WithSite(net, u, site.(node := node, drafts := site.drafts - {lsa})), u, targets, lsa)
      .(published := net.published + {lsa})
  }

  function NextLsa(net: Net, q: LsaPacket, first: bool): Net
    requires q.to in net.sites && q.from in net.sites
  {
    var site := net.sites[q.to];
    var (node, targets) := ReceiveLsa(site.node, q.lsa, UnicastSource(net.sites[q.from].place));
    var accepted := if Takes(site.node, q.lsa) then site.accepted + multiset{q.lsa} else site.accepted;
    var received := WithSite(net, q.to, site.(node := node, accepted := accepted)).(
      lsaFlight := if first then net.lsaFlight - multiset{q} else net.lsaFlight);
    Sending(received, q.to, targets, q.lsa)
  }

  function NextClean(net: Net, u: NodeId): Net
    requires u in net.sites
  {
    var site := net.sites[u];
    WithSite(net, u, site.(node := CleanLsas(site.node, net.now)))
  }

  function NextScan(net: Net, u: NodeId): Net
    requires u in net.sites
  {
    var site := net.sites[u];
    WithSite(net, u, site.(scan := Some(Scan(net.now, StalePeers(site.node, net.now)))))
  }

  function NextEvict(net: Net, u: NodeId): Net
    requires u in net.sites && net.sites[u].scan.Some?
  {
    var site := net.sites[u];
    var stale := site.scan.value.stale;
    WithSite(net, u, site.(
      node := Evict(site.node, stale), scan := None, removals := site.removals + multiset(stale),
      due := site.due || stale != {}, samples := site.samples - stale))
  }

  function NextPing(net: Net, u: NodeId): Net
    requires u in net.sites
  {
    var site := net.sites[u];
    var node := PingRound(site.node, net.now);
    var gone := site.node.pings.Keys - RetainedPings(site.node.pings, net.now).Keys;
    var sent := Records(FloodTargets(site.node), node.pingSequence, net.now).Keys;
    WithSite(net, u, site.(node := node, pings := PingTrace(
      site.pings.recorded + multiset(sent), site.pings.sampled, site.pings.purged + multiset(gone),
      site.pings.story + [Round(gone)], site.pings.times + map k <- sent :: net.now)))
  }

  function NextPong(net: Net, to: NodeId, from: NodeId, sequence: nat): Net
    requires to in net.sites
  {
    var site := net.sites[to];
    var pong := TakePong(site.node, from, sequence);
    if pong.None? then net
    else WithSite(net, to,
        site.(pong := pong, pings := site.pings.(story := site.pings.story + [Take(pong.value.key)])))
  }

  function NextCount(net: Net, u: NodeId): Net
    requires u in net.sites && net.sites[u].pong.Some?
  {
    var site := net.sites[u];
    var pong := site.pong.value;
    var present := pong.key.0 in site.node.peers;
    var peer := pong.key.0;
    var samples :=
      if present && peer in site.samples
      then site.samples[peer := site.samples[peer] + [RoundTrip(site.pings, pong.key, net.now)]]
      else site.samples;
    var pings := site.pings.(
      sampled := if present then site.pings.sampled + multiset{pong.key} else site.pings.sampled,
      story := site.pings.story + [Count(pong.key, present)]);
    var node := CountPong(site.node, pong, net.now);
    WithSite(net, u, site.(node := node, pong := None, samples := samples, pings := pings))
  }

  // ----- what each event leaves alone

  predicate SameSession(a: Site, b: Site) {
    a.node.id == b.node.id && a.place == b.place && a.node.sessions == b.node.sessions && a.removals == b.removals
  }

  predicate SamePeers(a: Site, b: Site) {
    && a.node.id == b.node.id && a.place == b.place && a.node.peers == b.node.peers && a.scan == b.scan
    && a.samples == b.samples
  }

  predicate SameLsas(a: Site, b: Site) {
    && a.node.id == b.node.id && a.place == b.place && a.node.lsas == b.node.lsas
    && a.node.lsaSequence == b.node.lsaSequence && a.drafts == b.drafts && a.accepted == b.accepted
  }

  predicate SamePings(a: Site, b: Site) {
    && a.node.id == b.node.id && a.place == b.place && a.node.pings == b.node.pings
    && a.node.pingSequence == b.node.pingSequence && a.pong == b.pong && a.pings == b.pings
  }

  ghost predicate SessionsKept(net: Net, net': Net) {
    && net'.sites.Keys == net.sites.Keys && net'.log == net.log && net'.flight == net.flight && net'.next == net.next
    && forall u <- net.sites :: SameSession(net.sites[u], net'.sites[u])
  }

  ghost predicate PeersKept(net: Net, net': Net) {
    && net'.sites.Keys == net.sites.Keys && net'.now == net.now
    && forall u <- net.sites :: SamePeers(net.sites[u], net'.sites[u])
  }

  ghost predicate LsasKept(net: Net, net': Net) {
    && net'.sites.Keys == net.sites.Keys && net'.lsaLog == net.lsaLog && net'.lsaFlight == net.lsaFlight
    && net'.generated == net.generated && net'.published == net.published && net'.sends == net.sends
    && forall u <- net.sites :: SameLsas(net.sites[u], net'.sites[u])
  }

  ghost predicate PingsKept(net: Net, net': Net) {
    && net'.sites.Keys == net.sites.Keys
    && forall u <- net.sites :: SamePings(net.sites[u], net'.sites[u])
  }

  /** Nothing but the site u, which became `site`, and what is not listed may differ. */
  lemma OneSite(net: Net, u: NodeId, site: Site, net': Net)
    requires u in net.sites && net'.sites == net.sites[u := site]
    ensures net'.sites.Keys == net.sites.Keys && net'.sites[u] == site
    ensures forall v <- net.sites | v != u :: net'.sites[v] == net.sites[v]
    ensures SameSession(net.sites[u], site) && net'.log == net.log && net'.flight == net.flight && net'.next == net.next
        ==> SessionsKept(net, net')
    ensures SamePeers(net.sites[u], site) && net'.now == net.now ==> PeersKept(net, net')
    ensures SamePings(net.sites[u], site) ==> PingsKept(net, net')
    ensures SameLsas(net.sites[u], site) && net'.lsaLog == net.lsaLog && net'.lsaFlight == net.lsaFlight
         && net'.generated == net.generated && net'.published == net.published && net'.sends == net.sends
        ==> LsasKept(net, net')
  {
  }

  lemma HelloFrame(net: Net, to: NodeId, from: NodeId)
    requires to in net.sites && from in net.sites
    ensures var net' := NextHello(net, to, from);
      LsasKept(net, net') && PingsKept(net, net') && net'.now == net.now
  {
    var net' := NextHello(net, to, from);
    OneSite(net, to, net'.sites[to], net');
  }

  lemma HandshakeFrame(net: Net, p: Packet, first: bool)
    requires p.to in net.sites
    ensures var net' := NextHandshake(net, p, first);
      PeersKept(net, net') && LsasKept(net, net') && PingsKept(net, net')
  {
    var net' := NextHandshake(net, p, first);
    OneSite(net, p.to, net'.sites[p.to], net');
  }

  lemma GenerateFrame(net: Net, u: NodeId)
    requires u in net.sites
    ensures var net' := NextGenerate(net, u);
      SessionsKept(net, net') && PeersKept(net, net') && PingsKept(net, net')
  {
    var net' := NextGenerate(net, u);
    OneSite(net, u, net'.sites[u], net');
  }

  lemma PublishFrame(net: Net, u: NodeId, lsa: Lsa)
    requires u in net.sites
    ensures var net' := NextPublish(net, u, lsa);
      SessionsKept(net, net') && PeersKept(net, net') && PingsKept(net, net')
  {
    var net' := NextPublish(net, u, lsa);
    OneSite(net, u, net'.sites[u], net');
  }

  lemma LsaFrame(net: Net, q: LsaPacket, first: bool)
    requires q.to in net.sites && q.from in net.sites
    ensures var net' := NextLsa(net, q, first);
      SessionsKept(net, net') && PeersKept(net, net') && PingsKept(net, net')
  {
    var net' := NextLsa(net, q, first);
    OneSite(net, q.to, net'.sites[q.to], net');
  }

  lemma CleanFrame(net: Net, u: NodeId)
    requires u in net.sites
    ensures var net' := NextClean(net, u);
      SessionsKept(net, net') && PeersKept(net, net') && PingsKept(net, net')
  {
    var net' := NextClean(net, u);
    OneSite(net, u, net'.sites[u], net');
  }

  lemma ScanFrame(net: Net, u: NodeId)
    requires u in net.sites
    ensures var net' := NextScan(net, u);
      SessionsKept(net, net') && LsasKept(net, net') && PingsKept(net, net')
  {
    var net' := NextScan(net, u);
    OneSite(net, u, net'.sites[u], net');
  }

  lemma EvictFrame(net: Net, u: NodeId)
    requires u in net.sites && net.sites[u].scan.Some?
    ensures var net' := NextEvict(net, u);
      LsasKept(net, net') && PingsKept(net, net') && net'.now == net.now
  {
    var net' := NextEvict(net, u);
    OneSite(net, u, net'.sites[u], net');
  }

  lemma PingFrame(net: Net, u: NodeId)
    requires u in net.sites
    ensures var net' := NextPing(net, u);
      SessionsKept(net, net') && PeersKept(net, net') && LsasKept(net, net')
  {
    var net' := NextPing(net, u);
    OneSite(net, u, net'.sites[u], net');
  }

  lemma PongFrame(net: Net, to: NodeId, from: NodeId, sequence: nat)
    requires to in net.sites
    ensures var net' := NextPong(net, to, from, sequence);
      SessionsKept(net, net') && PeersKept(net, net') && LsasKept(net, net')
  {
    var net' := NextPong(net, to, from, sequence);
    OneSite(net, to, net'.sites[to], net');
  }

  lemma CountFrame(net: Net, u: NodeId)
    requires u in net.sites && net.sites[u].pong.Some?
    ensures var net' := NextCount(net, u);
      SessionsKept(net, net') && LsasKept(net, net') && net'.now == net.now
  {
    var net' := NextCount(net, u);
    OneSite(net, u, net'.sites[u], net');
  }

  // ----- runs

  /** Every event of the run is enabled when its turn comes. */
  ghost predicate Runs(net: Net, evs: seq<Event>)
    decreases |evs|
  {
    evs == [] || (Enabled(net, evs[0]) && Runs(Next(net, evs[0]), evs[1..]))
  }

  ghost function After(net: Net, evs: seq<Event>): Net
    requires Runs(net, evs)
    decreases |evs|
  {
    if evs == [] then net else After(Next(net, evs[0]), evs[1..])
  }

  lemma {:induction false} RunSplits(net: Net, evs: seq<Event>, more: seq<Event>)
    requires Runs(net, evs + more)
    ensures Runs(net, evs) && Runs(After(net, evs), more) && After(net, evs + more) == After(After(net, evs), more)
    decreases |evs|
  {
    if evs == [] {
      assert evs + more == more;
    } else {
      assert (evs + more)[1..] == evs[1..] + more;
      RunSplits(Next(net, evs[0]), evs[1..], more);
    }
  }

  /** A run is a shorter run and one event. */
  lemma LastEvent(net: Net, evs: seq<Event>)
    requires Runs(net, evs) && evs != []
    ensures var front, last := evs[..|evs| - 1], evs[|evs| - 1];
      && Runs(net, front) && Enabled(After(net, front), last)
      && After(net, evs) == Next(After(net, front), last)
  {
    var front, last := evs[..|evs| - 1], evs[|evs| - 1];
    assert evs == front + [last];
    RunSplits(net, front, [last]);
    assert [last][1..] == [];
  }

  ghost predicate Reachable(net: Net) {
    exists start, evs :: Initial(start) && Runs(start, evs) && After(start, evs) == net
  }

  function View(net: Net, u: NodeId, v: NodeId): Option<NoiseState>
    requires u in net.sites
  {
    Lookup(net.sites[u].node.sessions, v)
  }
}
