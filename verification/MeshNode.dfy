/** The mesh node with its shared databases updated in place (crates/node/src/node.rs).
    Every method is proved equal to the function of module NodeStates that specifies it; what
    those functions guarantee over whole runs is proved in the Mesh modules. */
module MeshNode {
  import opened Common
  import opened LinkState
  import opened Noise
  import opened NodeStates
  import Rtt
  import Session

  /** One LinkState datagram. */
  datatype Datagram = Datagram(to: NodeId, dest: Addr, lsa: Lsa)

  function Destination(p: PeerInfo): Addr { Addr(p.addr.host, p.port) }

  /** One copy of the advertisement for every target. */
  function Copies(n: NodeState, targets: set<NodeId>, lsa: Lsa): set<Datagram>
    requires targets <= n.peers.Keys
  {
    set p <- targets :: Datagram(p, Destination(n.peers[p]), lsa)
  }

  /** A row of `get_neighbor_addresses`, keyed by the neighbour's id. */
  datatype Neighbor = Neighbor(port: nat, addr: Addr)

  lemma OneMore<T>(s: set<T>, x: T)
    requires x !in s
    ensures multiset(s + {x}) == multiset(s) + multiset{x}
  {
  }

  lemma OneMoreCopy(n: NodeState, done: set<NodeId>, p: NodeId, lsa: Lsa)
    requires done + {p} <= n.peers.Keys && p !in done
    ensures var d := Datagram(p, Destination(n.peers[p]), lsa);
      multiset(Copies(n, done + {p}, lsa)) == multiset(Copies(n, done, lsa)) + multiset{d}
  {
    var d := Datagram(p, Destination(n.peers[p]), lsa);
    assert Copies(n, done + {p}, lsa) == Copies(n, done, lsa) + {d};
    OneMore(Copies(n, done, lsa), d);
  }

  function Elements(s: seq<NodeId>): set<NodeId> { set p | p in s }

  lemma RecordOneMore(kept: map<PingKey, Instant>, peers: set<NodeId>, rest: set<NodeId>, p: NodeId, sequence: nat,
                      now: Instant)
    requires p in rest && rest <= peers
    ensures kept + Records(peers - (rest - {p}), sequence, now)
         == (kept + Records(peers - rest, sequence, now))[(p, sequence) := now]
  {
    assert (set q <- peers - (rest - {p}) :: (q, sequence)) ==
        (set q <- peers - rest :: (q, sequence)) + {(p, sequence)};
  }

  lemma OverwriteTwice<K, V>(m: map<K, V>, k: K, a: V, b: V)
    ensures m[k := a][k := b] == m[k := b]
  {
  }

  class Node {
    const id: NodeId
    var peerDb: map<NodeId, PeerInfo>
    var sessionDb: map<NodeId, Session.NoiseState>
    var pingDb: map<PingKey, Instant>
    var linkStateDb: LsaDb
    var lsaSequence: nat
    var pingSequence: nat

    function View(): NodeState
      reads this
    {
      NodeState(id, peerDb, sessionDb, pingDb, linkStateDb, lsaSequence, pingSequence)
    }

    constructor (id: NodeId)
      ensures View() == NodeState(id, map[], map[], map[], map[], 0, 0)
    {
      this.id := id;
      peerDb, sessionDb, pingDb, linkStateDb := map[], map[], map[], map[];
      lsaSequence, pingSequence := 0, 0;
    }

    // ----- discovery and handshake

    method HandleHello(from: NodeId, addr: Addr, port: nat, now: Instant, next: Ephemeral)
      returns (reply: Option<Message>)
      modifies this
      ensures (View(), reply) == ReceiveHello(old(View()), from, addr, port, now, next)
    {
      reply := None;
      if from == id {
        return;
      }
      if from in sessionDb {
        if from in peerDb {
          peerDb := peerDb[from := peerDb[from].(lastSeen := now, addr := addr, port := port)];
        } else {
          peerDb := peerDb[from := PeerInfo(now, addr, port, None)];
        }
        return;
      }
      if id < from {
        sessionDb := sessionDb[from := Session.ExpectingInitiator];
        return;
      }
      var (state, msg) := StartHandshake(next);
      sessionDb := sessionDb[from := Session.Handshaking(state)];
      reply := Some(msg);
    }

    method HandleHandshake(from: NodeId, msg: Message, next: Ephemeral)
      returns (reply: Option<Message>, broadcastDue: bool)
      modifies this
      ensures (View(), reply, broadcastDue) == ReceiveHandshake(old(View()), from, msg, next)
      ensures broadcastDue <==> from in sessionDb && sessionDb[from].Transport?
                                && !(from in old(sessionDb) && old(sessionDb)[from].Transport?)
    {
      reply, broadcastDue := None, false;
      if from == id {
        return;
      }
      if from !in sessionDb {
        if id < from {
          sessionDb := sessionDb[from := Session.ExpectingInitiator];
        } else {
          assert sessionDb - {from} == sessionDb;
          return;
        }
      }
      var taken := sessionDb[from];
      sessionDb := sessionDb[from := Session.Transitioning];
      OverwriteTwice(old(sessionDb), from, Session.ExpectingInitiator, Session.Transitioning);
      assert sessionDb == old(sessionDb)[from := Session.Transitioning];
      match taken {
        case ExpectingInitiator =>
          var read := ReadMessage(BuildResponder(), msg);
          if read.Err? {
            return;
          }
          var written := WriteMessage(read.value, next);
          if written.Err? {
            return;
          }
          sessionDb := sessionDb[from := Session.Handshaking(written.value.0)];
          OverwriteTwice(old(sessionDb), from, Session.Transitioning, sessionDb[from]);
          reply := Some(written.value.1);
        case Handshaking(state) =>
          var read := ReadMessage(state, msg);
          if read.Err? {
            return;
          }
          if read.value.Finished() {
            sessionDb := sessionDb[from := Session.Transport(read.value.transcript)];
            OverwriteTwice(old(sessionDb), from, Session.Transitioning, sessionDb[from]);
            broadcastDue := true;
            return;
          }
          var written := WriteMessage(read.value, next);
          if written.Err? {
            return;
          }
          if written.value.0.Finished() {
            sessionDb := sessionDb[from := Session.Transport(written.value.0.transcript)];
            broadcastDue := true;
          } else {
            sessionDb := sessionDb[from := Session.Handshaking(written.value.0)];
          }
          OverwriteTwice(old(sessionDb), from, Session.Transitioning, sessionDb[from]);
          reply := Some(written.value.1);
        case other =>
          sessionDb := sessionDb[from := other];
          OverwriteTwice(old(sessionDb), from, Session.Transitioning, other);
      }
    }

    // ----- link state

    method GenerateLsa(now: Instant) returns (lsa: Lsa)
      modifies this`lsaSequence
      ensures (View(), lsa) == Generate(old(View()), now)
    {
      lsaSequence := lsaSequence + 1;
      lsa := Lsa(id, lsaSequence, now / SECOND, GetEstablishedNeighbors());
    }

    function GetEstablishedNeighbors(): set<NodeId>
      reads this
    {
      set p <- sessionDb | sessionDb[p].Transport?
    }

    function GetNeighborAddresses(): (rows: map<NodeId, Neighbor>)
      reads this
      ensures rows.Keys == FloodTargets(View())
      ensures forall p <- rows :: rows[p] == Neighbor(peerDb[p].port, peerDb[p].addr)
    {
      map p <- peerDb | p in sessionDb && sessionDb[p].Transport? :: Neighbor(peerDb[p].port, peerDb[p].addr)
    }

    /** d carries lsa to the host its peer was heard from, at the unicast port the peer named. */
    predicate GoesToUnicastPort(d: Datagram, lsa: Lsa)
      reads this
    {
      d.to in peerDb && d.lsa == lsa && d.dest.host == peerDb[d.to].addr.host && d.dest.port == peerDb[d.to].port
    }

    /** Sends one copy to every established neighbour. */
    method SendToAllNeighbors(lsa: Lsa) returns (sent: seq<Datagram>)
      ensures multiset(sent) == multiset(Copies(View(), FloodTargets(View()), lsa))
      ensures forall d <- sent :: GoesToUnicastPort(d, lsa)
    {
      var neighbors := GetNeighborAddresses();
      ghost var node := View();
      sent := [];
      var rest := neighbors.Keys;
      while rest != {}
        invariant rest <= neighbors.Keys
        invariant multiset(sent) == multiset(Copies(node, neighbors.Keys - rest, lsa))
        invariant forall d <- sent :: GoesToUnicastPort(d, lsa)
        decreases rest
      {
        var p :| p in rest;
        OneMoreCopy(node, neighbors.Keys - rest, p, lsa);
        assert neighbors.Keys - (rest - {p}) == neighbors.Keys - rest + {p};
        sent := sent + [Datagram(p, Addr(neighbors[p].addr.host, neighbors[p].port), lsa)];
        rest := rest - {p};
      }
      assert neighbors.Keys - rest == FloodTargets(node);
    }

    /** Sends one copy to every established neighbour whose recorded address is not the
        sender's. */
    method FloodLsaExceptSender(lsa: Lsa, sender: Addr) returns (sent: seq<Datagram>)
      ensures multiset(sent) == multiset(Copies(View(), TargetsExcept(View(), sender), lsa))
      ensures forall d <- sent :: GoesToUnicastPort(d, lsa)
    {
      var neighbors := GetNeighborAddresses();
      ghost var node := View();
      ghost var wanted := TargetsExcept(node, sender);
      sent := [];
      var rest := neighbors.Keys;
      while rest != {}
        invariant rest <= neighbors.Keys
        invariant multiset(sent) == multiset(Copies(node, wanted - rest, lsa))
        invariant forall d <- sent :: GoesToUnicastPort(d, lsa)
        decreases rest
      {
        var p :| p in rest;
        ghost var done := wanted - rest;
        rest := rest - {p};
        if neighbors[p].addr == sender {
          assert wanted - rest == done;
          continue;
        }
        OneMoreCopy(node, done, p, lsa);
        assert wanted - rest == done + {p};
        sent := sent + [Datagram(p, Addr(neighbors[p].addr.host, neighbors[p].port), lsa)];
      }
      assert wanted - rest == wanted;
    }

    method BroadcastLsa(now: Instant) returns (sent: seq<Datagram>)
      modifies this`lsaSequence, this`linkStateDb
      ensures var (drafted, lsa) := Generate(old(View()), now);
        var (published, targets) := Publish(drafted, lsa);
        && View() == published
        && targets <= published.peers.Keys
        && multiset(sent) == multiset(Copies(published, targets, lsa))
        && forall d <- sent :: GoesToUnicastPort(d, lsa)
    {
      var lsa := GenerateLsa(now);
      linkStateDb := linkStateDb[id := lsa];
      sent := SendToAllNeighbors(lsa);
    }

    method HandleLsa(lsa: Lsa, src: Addr) returns (sent: seq<Datagram>)
      modifies this`linkStateDb
      ensures var (node, targets) := ReceiveLsa(old(View()), lsa, src);
        && View() == node
        && targets <= node.peers.Keys
        && multiset(sent) == multiset(Copies(node, targets, lsa))
        && forall d <- sent :: GoesToUnicastPort(d, lsa)
    {
      sent := [];
      if lsa.origin == id {
        return;
      }
      var shouldFlood;
      if lsa.origin in linkStateDb {
        var existing := linkStateDb[lsa.origin];
        if lsa.sequence > existing.sequence
           || (lsa.sequence == existing.sequence && lsa.timestamp > existing.timestamp)
        {
          linkStateDb := linkStateDb[lsa.origin := lsa];
          shouldFlood := true;
        } else {
          shouldFlood := false;
        }
      } else {
        linkStateDb := linkStateDb[lsa.origin := lsa];
        shouldFlood := true;
      }
      if shouldFlood {
        sent := FloodLsaExceptSender(lsa, src);
      }
    }

    method CleanupStaleLsas(now: Instant) returns (removed: nat)
      modifies this`linkStateDb
      ensures View() == CleanLsas(old(View()), now)
      ensures removed == |old(linkStateDb)| - |linkStateDb|
    {
      var initialCount := |linkStateDb|;
      ghost var before := linkStateDb;
      linkStateDb := map o <- linkStateDb | !Stale(linkStateDb[o], now / SECOND) :: linkStateDb[o];
      SubsetSmaller(linkStateDb.Keys, before.Keys);
      removed := initialCount - |linkStateDb|;
    }

    // ----- stale peers

    /** The first lock section of `remove_stale_peers`: every silent peer, once. */
    method ScanStalePeers(now: Instant) returns (stale: seq<NodeId>)
      ensures forall p :: p in stale <==> p in StalePeers(View(), now)
      ensures forall p :: p in stale <==> p in peerDb && now - peerDb[p].lastSeen > 60_000_000_000
      ensures forall i, j | 0 <= i < j < |stale| :: stale[i] != stale[j]
    {
      stale := [];
      var rest := peerDb.Items;
      while rest != {}
        invariant rest <= peerDb.Items
        invariant forall p :: p in stale <==> p in peerDb && Silent(peerDb[p], now) && (p, peerDb[p]) !in rest
        invariant forall i, j | 0 <= i < j < |stale| :: stale[i] != stale[j]
        decreases rest
      {
        var item :| item in rest;
        if Silent(item.1, now) {
          stale := stale + [item.0];
        }
        rest := rest - {item};
      }
    }

    /** The rest of `remove_stale_peers`: nothing without stale peers, otherwise the second lock
        section, after which a broadcast is due. */
    method EvictPeers(stale: seq<NodeId>) returns (broadcastDue: bool)
      modifies this`peerDb, this`sessionDb
      ensures View() == Evict(old(View()), Elements(stale))
      ensures broadcastDue <==> stale != []
    {
      broadcastDue := false;
      if |stale| == 0 {
        assert Elements(stale) == {};
        assert peerDb - {} == peerDb && sessionDb - {} == sessionDb;
        return;
      }
      for i := 0 to |stale|
        invariant View() == Evict(old(View()), Elements(stale[..i]))
      {
        assert Elements(stale[..i + 1]) == Elements(stale[..i]) + {stale[i]};
        peerDb := peerDb - {stale[i]};
        sessionDb := sessionDb - {stale[i]};
        assert peerDb == old(peerDb) - Elements(stale[..i + 1]);
        assert sessionDb == old(sessionDb) - Elements(stale[..i + 1]);
      }
      assert stale[..|stale|] == stale;
      broadcastDue := true;
    }

    // ----- pings

    method CleanStalePings(now: Instant)
      modifies this`pingDb
      ensures View() == old(View()).(pings := RetainedPings(old(pingDb), now))
    {
      pingDb := map k <- pingDb | Elapsed(now, pingDb[k]) > PING_TIMEOUT :: pingDb[k];
    }

    method SendPing(to: NodeId, sequence: nat, now: Instant)
      modifies this`pingDb
      ensures View() == old(View()).(pings := old(pingDb)[(to, sequence) := now])
    {
      pingDb := pingDb[(to, sequence) := now];
    }

    /** One iteration of `ping_peers`. */
    method PingPeers(now: Instant)
      modifies this`pingDb, this`pingSequence
      ensures View() == PingRound(old(View()), now)
    {
      pingSequence := pingSequence + 1;
      CleanStalePings(now);
      ghost var node, kept := View(), pingDb;
      var peers := GetNeighborAddresses().Keys;
      var rest := peers;
      while rest != {}
        invariant rest <= peers
        invariant View() == node.(pings := pingDb)
        invariant pingDb == kept + Records(peers - rest, pingSequence, now)
        decreases rest
      {
        var p :| p in rest;
        RecordOneMore(kept, peers, rest, p, pingSequence, now);
        SendPing(p, pingSequence, now);
        rest := rest - {p};
      }
      assert peers - rest == FloodTargets(old(View()));
    }

    /** `can_take_pong`: the record a pong belongs to. */
    method CanTakePong(from: NodeId, sequence: nat) returns (pong: Option<Pong>)
      requires from != id
      ensures pong == TakePong(View(), from, sequence)
    {
      if from !in peerDb {
        return None;
      }
      if from !in sessionDb || !sessionDb[from].Transport? {
        return None;
      }
      if (from, sequence) !in pingDb {
        return None;
      }
      return Some(Pong((from, sequence), pingDb[(from, sequence)]));
    }

    /** The second lock section of `handle_pong`. */
    method CountTakenPong(pong: Pong, now: Instant)
      modifies this`peerDb, this`pingDb
      ensures View() == CountPong(old(View()), pong, now)
    {
      var peer := pong.key.0;
      if peer in peerDb {
        var info := peerDb[peer];
        var stats := if info.rtt.Some? then info.rtt.value else Rtt.DEFAULT;
        peerDb := peerDb[peer := info.(rtt := Some(Rtt.Updated(stats, Elapsed(now, pong.sent))))];
        pingDb := pingDb - {pong.key};
      }
    }

    /** Both sections of `handle_pong`, when no other task runs in between. */
    method HandlePong(from: NodeId, sequence: nat, now: Instant)
      modifies this`peerDb, this`pingDb
      ensures var pong := TakePong(old(View()), from, sequence);
        View() == if pong.None? then old(View()) else CountPong(old(View()), pong.value, now)
    {
      if from == id {
        return;
      }
      var pong := CanTakePong(from, sequence);
      if pong.Some? {
        CountTakenPong(pong.value, now);
      }
    }

    method HandlePing(from: NodeId) returns (port: Option<nat>)
      ensures port == ReceivePing(View(), from)
    {
      if from == id || from !in peerDb || from !in sessionDb || !sessionDb[from].Transport? {
        return None;
      }
      return Some(peerDb[from].port);
    }
  }
}
