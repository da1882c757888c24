/** The databases of one node and, as functions on their values, what each message handler and
    timer body of crates/node/src/node.rs does to them.  Module MeshNode holds the imperative
    form of the same handlers and proves it equal to these functions. */
module NodeStates {
  import opened Common
  import opened LinkState
  import opened Noise
  import Rtt
  import Session

  /** Instants are nanoseconds of one clock. */
  type Instant = nat

  const SECOND: nat := 1_000_000_000
  const PEER_TIMEOUT: nat := 60 * SECOND
  const PING_TIMEOUT: nat := 30 * SECOND

  /** A socket address. */
  datatype Addr = Addr(host: nat, port: nat)

  datatype PeerInfo = PeerInfo(lastSeen: Instant, addr: Addr, port: nat, rtt: Option<Rtt.Stats>)

  type PingKey = (NodeId, nat)

  datatype NodeState = NodeState(
    id: NodeId,
    peers: map<NodeId, PeerInfo>,
    sessions: map<NodeId, Session.NoiseState>,
    pings: map<PingKey, Instant>,
    lsas: LsaDb,
    lsaSequence: nat,
    pingSequence: nat)

  function Lookup<K, V>(m: map<K, V>, k: K): Option<V> {
    if k in m then Some(m[k]) else None
  }

  function Stored<K, V>(m: map<K, V>, k: K, v: Option<V>): map<K, V> {
    if v.Some? then m[k := v.value] else m - {k}
  }

  function Elapsed(now: Instant, since: Instant): Rtt.Duration {
    if now < since then 0
    else if now - since > Rtt.MAX_NANOS then Rtt.MAX_NANOS
    else now - since
  }

  predicate Established(n: NodeState, p: NodeId) {
    p in n.sessions && n.sessions[p].Transport?
  }

  /** The neighbours an advertisement lists. */
  function EstablishedNeighbors(n: NodeState): set<NodeId> {
    set p <- n.sessions | n.sessions[p].Transport?
  }

  /** The neighbours an advertisement or a ping is sent to. */
  function FloodTargets(n: NodeState): (r: set<NodeId>)
    ensures r <= n.peers.Keys
  {
    set p <- n.peers | Established(n, p)
  }

  /** `receive`, Hello branch, and `handle_hello`. */
  function ReceiveHello(n: NodeState, from: NodeId, addr: Addr, port: nat, now: Instant, next: Ephemeral)
    : (NodeState, Option<Message>)
  {
    if from == n.id then (n, None)
    else if from in n.sessions then
      var info :=
        if from in n.peers then n.peers[from].(lastSeen := now, addr := addr, port := port)
        else PeerInfo(now, addr, port, None);
      (n.(peers := n.peers[from := info]), None)
    else
      var o := Session.OnHello(n.id, from, next);
      (n.(sessions := Stored(n.sessions, from, o.session)), o.reply)
  }

  /** `receive`, Handshake branch, and `handle_handshake`; the boolean tells whether a
      link state broadcast is due. */
  function ReceiveHandshake(n: NodeState, from: NodeId, m: Message, next: Ephemeral): (NodeState, Option<Message>, bool)
  {
    if from == n.id then (n, None, false)
    else
      var o := Session.OnHandshake(n.id, from, Lookup(n.sessions, from), m, next);
      (n.(sessions := Stored(n.sessions, from, o.session)), o.reply, o.completed)
  }

  /** `generate_lsa`. */
  function Generate(n: NodeState, now: Instant): (NodeState, Lsa) {
    var sequence := n.lsaSequence + 1;
    (n.(lsaSequence := sequence), Lsa(n.id, sequence, now / SECOND, EstablishedNeighbors(n)))
  }

  /** The rest of `broadcast_lsa`: store unconditionally, send to every flood target. */
  function Publish(n: NodeState, lsa: Lsa): (NodeState, set<NodeId>) {
    (n.(lsas := n.lsas[n.id := lsa]), FloodTargets(n))
  }

  /** Targets whose recorded address is not the one the packet came from. */
  function TargetsExcept(n: NodeState, src: Addr): (r: set<NodeId>)
    ensures r <= n.peers.Keys
  {
    set p <- FloodTargets(n) | n.peers[p].addr != src
  }

  /** Whether a received advertisement is stored and flooded on. */
  predicate Takes(n: NodeState, lsa: Lsa) {
    lsa.origin != n.id && Accepts(n.lsas, lsa)
  }

  /** `receive`, LinkState branch, and `handle_lsa`. */
  function ReceiveLsa(n: NodeState, lsa: Lsa, src: Addr): (NodeState, set<NodeId>) {
    if Takes(n, lsa) then (n.(lsas := Merge(n.lsas, lsa)), TargetsExcept(n, src)) else (n, {})
  }

  /** `cleanup_stale_lsas`. */
  function CleanLsas(n: NodeState, now: Instant): NodeState {
    n.(lsas := Cleaned(n.lsas, now / SECOND))
  }

  /** Silent for more than 60 s. */
  predicate Silent(p: PeerInfo, now: Instant) {
    Elapsed(now, p.lastSeen) > PEER_TIMEOUT
  }

  /** First half of `remove_stale_peers`. */
  function StalePeers(n: NodeState, now: Instant): set<NodeId> {
    set p <- n.peers | Silent(n.peers[p], now)
  }

  /** Second half of `remove_stale_peers`: no second look at the peers. */
  function Evict(n: NodeState, stale: set<NodeId>): NodeState {
    n.(peers := n.peers - stale, sessions := n.sessions - stale)
  }

  /** The retained part of the ping table, as `clean_stale_pings` is written: the records
      that are older than the timeout. */
  function RetainedPings(pings: map<PingKey, Instant>, now: Instant): map<PingKey, Instant> {
    map k <- pings | Elapsed(now, pings[k]) > PING_TIMEOUT :: pings[k]
  }

  /** What its documentation says is retained. */
  function DocumentedPings(pings: map<PingKey, Instant>, now: Instant): map<PingKey, Instant> {
    map k <- pings | Elapsed(now, pings[k]) <= PING_TIMEOUT :: pings[k]
  }

  /** The ping records of one round. */
  function Records(to: set<NodeId>, sequence: nat, now: Instant): map<PingKey, Instant> {
    var keys := set p <- to :: (p, sequence);
    map k <- keys :: now
  }

  /** One round of `ping_peers`. */
  function PingRound(n: NodeState, now: Instant): NodeState {
    n.(pingSequence := n.pingSequence + 1,
       pings := RetainedPings(n.pings, now) + Records(FloodTargets(n), n.pingSequence + 1, now))
  }

  /** `can_take_pong`. */
  predicate CanTakePong(n: NodeState, from: NodeId, sequence: nat) {
    from in n.peers && Established(n, from) && (from, sequence) in n.pings
  }

  /** Whether a received pong is taken. */
  predicate Samples(n: NodeState, from: NodeId, sequence: nat) {
    from != n.id && CanTakePong(n, from, sequence)
  }

  /** A pong that passed `can_take_pong`: the key of its record and when the ping was sent. */
  datatype Pong = Pong(key: PingKey, sent: Instant)

  /** `receive`, Pong branch, and `handle_pong` up to the end of `can_take_pong`. */
  function TakePong(n: NodeState, from: NodeId, sequence: nat): Option<Pong> {
    if Samples(n, from, sequence) then Some(Pong((from, sequence), n.pings[(from, sequence)])) else None
  }

  /** The rest of `handle_pong`: a sample if the peer is still there, whatever has become of the
      record in the meantime. */
  function CountPong(n: NodeState, pong: Pong, now: Instant): NodeState {
    var peer := pong.key.0;
    if peer !in n.peers then n
    else
      var info := n.peers[peer];
      var stats := if info.rtt.Some? then info.rtt.value else Rtt.DEFAULT;
      var sample := Elapsed(now, pong.sent);
      n.(peers := n.peers[peer := info.(rtt := Some(Rtt.Updated(stats, sample)))],
         pings := n.pings - {pong.key})
  }

  /** `receive`, Ping branch, and `handle_ping`: the port to answer to. */
  function ReceivePing(n: NodeState, from: NodeId): Option<nat> {
    if from != n.id && from in n.peers && Established(n, from) then Some(n.peers[from].port) else None
  }

  /** The written clean-up and the documented one keep complementary records, so they agree
      exactly on the empty table. */
  lemma CleanupAgreesOnlyOnEmptyTable(pings: map<PingKey, Instant>, now: Instant)
    ensures RetainedPings(pings, now) == DocumentedPings(pings, now) <==> pings == map[]
    ensures RetainedPings(pings, now).Keys !! DocumentedPings(pings, now).Keys
    ensures RetainedPings(pings, now) + DocumentedPings(pings, now) == pings
  {
    if pings != map[] {
      var k :| k in pings;
      assert k in RetainedPings(pings, now) <==> k !in DocumentedPings(pings, now);
    }
  }

  /** For instance a ping of this very moment is dropped although it is not stale. */
  lemma FreshPingIsDropped(k: PingKey, now: Instant)
    ensures RetainedPings(map[k := now], now) == map[]
    ensures DocumentedPings(map[k := now], now) == map[k := now]
  {
  }
}
