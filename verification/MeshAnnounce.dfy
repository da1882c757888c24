/** Announcing links (`handle_handshake`, `remove_stale_peers`, `broadcast_lsa` in
    crates/node/src/node.rs): whenever the transport sessions of a node change, a broadcast is owed,
    and a node that owes none has announced exactly the sessions it has. */
module MeshAnnounce {
  import opened Common
  import opened LinkState
  import opened Mesh
  import opened NodeStates
  import MeshState
  import Noise
  import Session

  /** The session of n with p is in transport mode. */
  predicate Up(n: NodeState, p: NodeId) {
    p in n.sessions && n.sessions[p].Transport?
  }

  /** `handle_handshake` asks for a broadcast exactly when the message put the session with its
      sender into transport mode, and no other session changes. */
  lemma BroadcastDueExactlyOnEstablishing(n: NodeState, from: NodeId, m: Noise.Message, next: Noise.Ephemeral)
    ensures var (n', _, broadcastDue) := ReceiveHandshake(n, from, m, next);
      && (broadcastDue <==> !Up(n, from) && Up(n', from))
      && (Up(n, from) ==> Up(n', from))
      && forall p | p != from :: Up(n', p) <==> Up(n, p)
  {
  }

  /** x lists exactly the transport sessions of n. */
  ghost predicate Announces(x: Lsa, n: NodeState) {
    x.origin == n.id && x.sequence == n.lsaSequence && forall p :: p in x.neighbors <==> Up(n, p)
  }

  /** A broadcast is owed, or nothing was ever drawn and no session is up, or the latest draw lists
      exactly the sessions that are up. */
  ghost predicate Current(net: Net, u: NodeId)
    requires u in net.sites
  {
    var n := net.sites[u].node;
    || net.sites[u].due
    || (n.lsaSequence == 0 && forall p :: !Up(n, p))
    || exists x <- net.generated :: Announces(x, n)
  }

  /** Nothing that matters to the announcement of u has changed. */
  ghost predicate SameStanding(net: Net, net': Net, u: NodeId) {
    && u in net.sites && u in net'.sites && net.generated <= net'.generated
    && var a, b := net.sites[u], net'.sites[u];
    && b.node.id == a.node.id && b.node.lsaSequence == a.node.lsaSequence && b.due == a.due
    && forall p :: Up(b.node, p) <==> Up(a.node, p)
  }

  lemma CurrentWhenSame(net: Net, net': Net, u: NodeId)
    requires SameStanding(net, net', u) && Current(net, u)
    ensures Current(net', u)
  {
    if x :| x in net.generated && Announces(x, net.sites[u].node) {
      assert x in net'.generated && Announces(x, net'.sites[u].node);
    }
  }

  lemma StandingAfterHello(net: Net, to: NodeId, from: NodeId, u: NodeId)
    requires to in net.sites && from in net.sites && u in net.sites
    ensures SameStanding(net, NextHello(net, to, from), u)
  {
  }

  lemma StandingAfterHandshake(net: Net, p: Session.Packet, first: bool, u: NodeId)
    requires p.to in net.sites && u in net.sites
    ensures var net' := NextHandshake(net, p, first);
      SameStanding(net, net', u) || (u in net'.sites && net'.sites[u].due)
  {
    BroadcastDueExactlyOnEstablishing(net.sites[p.to].node, p.from, p.msg, net.next);
  }

  lemma StandingAfterEvict(net: Net, v: NodeId, u: NodeId)
    requires v in net.sites && net.sites[v].scan.Some? && u in net.sites
    ensures var net' := NextEvict(net, v);
      SameStanding(net, net', u) || (u in net'.sites && net'.sites[u].due)
  {
  }

  lemma StandingAfterGenerate(net: Net, v: NodeId, u: NodeId)
    requires v in net.sites && u in net.sites && net.sites[v].node.id == v
    ensures var net' := NextGenerate(net, v);
      SameStanding(net, net', u) || (u == v && u in net'.sites && Current(net', u))
  {
    if u == v {
      var x := Generate(net.sites[u].node, net.now).1;
      assert x in NextGenerate(net, v).generated && Announces(x, NextGenerate(net, v).sites[u].node);
    }
  }

  lemma StandingOtherwise(net: Net, ev: Event, u: NodeId)
    requires Enabled(net, ev) && u in net.sites
    requires !ev.HelloIn? && !ev.HandshakeIn? && !ev.EvictAt? && !ev.GenerateAt?
    ensures SameStanding(net, Next(net, ev), u)
  {
  }

  lemma CurrentStep(net: Net, ev: Event, u: NodeId)
    requires Enabled(net, ev) && MeshState.Coherent(net) && u in net.sites && Current(net, u)
    ensures u in Next(net, ev).sites && Current(Next(net, ev), u)
  {
    var net' := Next(net, ev);
    if ev.HelloIn? {
      StandingAfterHello(net, ev.to, ev.from, u);
    } else if ev.HandshakeIn? {
      StandingAfterHandshake(net, ev.p, ev.first, u);
    } else if ev.EvictAt? {
      StandingAfterEvict(net, ev.u, u);
    } else if ev.GenerateAt? {
      assert MeshState.CoherentSite(net, ev.u);
      StandingAfterGenerate(net, ev.u, u);
    } else {
      StandingOtherwise(net, ev, u);
    }
    if SameStanding(net, net', u) {
      CurrentWhenSame(net, net', u);
    }
  }

  lemma {:induction false} CurrentRun(net: Net, evs: seq<Event>, u: NodeId)
    requires Runs(net, evs) && MeshState.Coherent(net) && u in net.sites && Current(net, u)
    ensures u in After(net, evs).sites && Current(After(net, evs), u)
    decreases |evs|
  {
    if evs != [] {
      MeshState.CoherentStep(net, evs[0]);
      CurrentStep(net, evs[0], u);
      CurrentRun(Next(net, evs[0]), evs[1..], u);
    }
  }

  /** In every run: a node that owes no broadcast has drawn an advertisement with its latest number
      that lists exactly its transport sessions, or has drawn none and has no such session. */
  lemma LatestDrawIsCurrent(start: Net, evs: seq<Event>, u: NodeId)
    requires Initial(start) && Runs(start, evs) && u in start.sites
    ensures u in After(start, evs).sites
    ensures var net := After(start, evs);
      var n := net.sites[u].node;
      n.id == u && (!net.sites[u].due ==>
        || (n.lsaSequence == 0 && forall p :: !Up(n, p))
        || exists x <- net.generated :: Announces(x, n))
  {
    CurrentRun(start, evs, u);
    MeshState.CoherentRun(start, evs);
    assert MeshState.CoherentSite(After(start, evs), u);
  }

  /** What makes a broadcast due, and nothing else does: a session of u that comes up, or the removal
      of the peers a scan has found. */
  lemma DueArises(net: Net, ev: Event, u: NodeId)
    requires Enabled(net, ev) && u in net.sites
    ensures var net' := Next(net, ev);
      && u in net'.sites
      && (net'.sites[u].due <==>
            || (net.sites[u].due && ev != GenerateAt(u))
            || (exists p :: !Up(net.sites[u].node, p) && Up(net'.sites[u].node, p))
            || (ev == EvictAt(u) && net.sites[u].scan.value.stale != {}))
  {
    if ev.HelloIn? {
      StandingAfterHello(net, ev.to, ev.from, u);
    } else if ev.HandshakeIn? {
      BroadcastDueExactlyOnEstablishing(net.sites[ev.p.to].node, ev.p.from, ev.p.msg, net.next);
    } else if !ev.EvictAt? && !ev.GenerateAt? {
      StandingOtherwise(net, ev, u);
    }
  }

  /** Whenever a session of u comes up or is lost, a broadcast is due afterwards. */
  lemma ChangeMakesDue(net: Net, ev: Event, u: NodeId, p: NodeId)
    requires Enabled(net, ev) && u in net.sites && u in Next(net, ev).sites
    requires Up(net.sites[u].node, p) != Up(Next(net, ev).sites[u].node, p)
    ensures Next(net, ev).sites[u].due
  {
    if ev.HelloIn? {
      StandingAfterHello(net, ev.to, ev.from, u);
    } else if ev.HandshakeIn? {
      StandingAfterHandshake(net, ev.p, ev.first, u);
    } else if ev.EvictAt? {
      StandingAfterEvict(net, ev.u, u);
    } else if !ev.GenerateAt? {
      StandingOtherwise(net, ev, u);
    }
  }
}
