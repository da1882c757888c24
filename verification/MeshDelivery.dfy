/** Where the datagrams of a node go (`send_unicast_message`, `send_to_all_neighbors`,
    `flood_lsa_except_sender`, `handle_ping` in crates/node/src/node.rs): the network of module Mesh
    delivers by node id, and in every reachable state the recorded hosts and ports are those ids'. */
module MeshDelivery {
  import opened Common
  import opened LinkState
  import opened Mesh
  import opened MeshNode
  import opened NodeStates
  import MeshState

  /** d carries lsa to the unicast socket of the node it is meant for. */
  ghost predicate Arrives(net: Net, d: Datagram, lsa: Lsa) {
    d.to in net.sites && d.lsa == lsa && d.dest == Addr(net.sites[d.to].place.host, net.sites[d.to].place.port)
  }

  lemma CopyArrives(net: Net, u: NodeId, targets: set<NodeId>, lsa: Lsa, d: Datagram)
    requires Reachable(net) && u in net.sites && targets <= net.sites[u].node.peers.Keys
    ensures d in Copies(net.sites[u].node, targets, lsa) <==> d.to in targets && Arrives(net, d, lsa)
  {
    MeshState.ReachableCoherent(net);
    assert MeshState.CoherentSite(net, u);
    var n := net.sites[u].node;
    if d.to in targets {
      assert n.peers[d.to].addr == HelloSource(net.sites[d.to].place);
    }
  }

  /** Whatever sequence of datagrams a node in this state produces as its copies of an advertisement
      for some targets, each target gets exactly one, at its own unicast socket, and nobody else. */
  lemma SentArrives(net: Net, u: NodeId, targets: set<NodeId>, lsa: Lsa, sent: seq<Datagram>)
    requires Reachable(net) && u in net.sites && targets <= net.sites[u].node.peers.Keys
    requires multiset(sent) == multiset(Copies(net.sites[u].node, targets, lsa))
    ensures forall d :: d in sent <==> d.to in targets && Arrives(net, d, lsa)
    ensures forall i, j | 0 <= i < j < |sent| :: sent[i].to != sent[j].to
  {
    var copies := Copies(net.sites[u].node, targets, lsa);
    forall d ensures d in sent <==> d.to in targets && Arrives(net, d, lsa) {
      CopyArrives(net, u, targets, lsa, d);
      assert d in sent <==> d in multiset(sent);
      assert d in copies <==> d in multiset(copies);
    }
    forall i, j | 0 <= i < j < |sent| ensures sent[i].to != sent[j].to {
      assert sent[i] in sent && sent[j] in sent;
      TwiceInSequence(sent, i, j);
    }
  }

  lemma TwiceInSequence<T>(s: seq<T>, i: nat, j: nat)
    requires i < j < |s|
    ensures s[i] == s[j] ==> multiset(s)[s[i]] >= 2
  {
    assert s == s[..j] + s[j..];
    assert s[..j][i] in multiset(s[..j]) && s[j..][0] in multiset(s[j..]);
  }

  /** A ping is answered exactly if it comes from a peer with a session in transport mode, and then at
      the port of the sender's own unicast socket. */
  lemma PingIsAnsweredExactly(net: Net, u: NodeId, from: NodeId)
    requires Reachable(net) && u in net.sites
    ensures var n := net.sites[u].node;
      if from in n.peers && from in n.sessions && n.sessions[from].Transport?
      then from in net.sites && ReceivePing(n, from) == Some(net.sites[from].place.port)
      else ReceivePing(n, from) == None
  {
    MeshState.ReachableCoherent(net);
    assert MeshState.CoherentSite(net, u);
  }
}
