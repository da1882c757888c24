/** How much work flooding does: each node accepts an advertisement at most once even when the
    network duplicates, copies are bounded by the directed edges, and flooding stops. */
module MeshBounds {
  import opened Common
  import opened LinkState
  import opened Mesh
  import opened MeshFlood
  import opened MeshLsa
  import opened NodeStates

  // ----- acceptance at most once

  ghost predicate AcceptedOnceAt(net: Net, u: NodeId, x: Lsa)
    requires u in net.sites
  {
    x in net.sites[u].accepted ==>
      u != x.origin && Holds(net, u, x.origin, x.sequence) && net.sites[u].accepted[x] == 1
  }

  /** What u has accepted from o since number s0 it still holds, or something newer, and it
      accepted each such advertisement once. */
  ghost predicate AcceptedOnce(net: Net, o: NodeId, s0: nat) {
    forall u <- net.sites, x: Lsa | x.origin == o && x.sequence > s0 :: AcceptedOnceAt(net, u, x)
  }

  /** What is taken now was not accepted before. */
  lemma TakenIsNew(net: Net, q: LsaPacket, o: NodeId, s0: nat)
    requires Grounded(net) && AcceptedOnce(net, o, s0) && q.to in net.sites && q in net.lsaLog
    requires q.lsa.origin == o && q.lsa.sequence > s0
    ensures Takes(net.sites[q.to].node, q.lsa) ==> q.lsa !in net.sites[q.to].accepted
  {
    assert AcceptedOnceAt(net, q.to, q.lsa);
    if q.lsa in net.sites[q.to].accepted {
      var y := net.sites[q.to].node.lsas[o];
      assert y in net.published && q.lsa in net.published;
      assert y.sequence == q.lsa.sequence ==> y == q.lsa;
    }
  }

  lemma AcceptedOnceReceive(net: Net, net': Net, ev: Event, o: NodeId, s0: nat, u: NodeId, x: Lsa)
    requires ev.LsaIn? && Enabled(net, ev) && ReceiveEffect(net, net', ev.q, ev.first) && Grounded(net)
    requires AcceptedOnce(net, o, s0)
    requires u in net.sites && x.origin == o && x.sequence > s0
    ensures AcceptedOnceAt(net', u, x)
  {
    var q := ev.q;
    assert AcceptedOnceAt(net, u, x);
    if u == q.to && x == q.lsa && Takes(net.sites[u].node, x) {
      TakenIsNew(net, q, o, s0);
      GroundedSite(net, u);
      assert net'.sites[u].node.lsas[o] == x;
    } else {
      assert net'.sites[u].accepted[x] == net.sites[u].accepted[x];
      if x in net.sites[u].accepted {
        ReceiveHolds(net, net', q, ev.first, u, o, x.sequence);
      }
    }
  }

  lemma AcceptedKeptOtherwise(net: Net, ev: Event, net': Net, u: NodeId)
    requires Enabled(net, ev) && Quiet(ev) && LsaEffect(net, ev, net') && !ev.LsaIn? && u in net.sites
    ensures u in net'.sites && net'.sites[u].accepted == net.sites[u].accepted
  {
    if !ev.GenerateAt? && !ev.PublishAt? {
      assert SameLsas(net.sites[u], net'.sites[u]);
    }
  }

  lemma AcceptedOnceStep(net: Net, ev: Event, net': Net, o: NodeId, s0: nat)
    requires Enabled(net, ev) && Quiet(ev) && LsaEffect(net, ev, net') && Grounded(net) && AcceptedOnce(net, o, s0)
    ensures AcceptedOnce(net', o, s0)
  {
    forall u, x: Lsa | u in net'.sites && x.origin == o && x.sequence > s0 ensures AcceptedOnceAt(net', u, x) {
      if ev.LsaIn? {
        AcceptedOnceReceive(net, net', ev, o, s0, u, x);
      } else {
        AcceptedKeptOtherwise(net, ev, net', u);
        assert AcceptedOnceAt(net, u, x);
        if x in net.sites[u].accepted {
          HoldsStays(net, ev, net', u, o, x.sequence);
        }
      }
    }
  }

  lemma AcceptedOnceWhenSame(net: Net, net': Net, o: NodeId, s0: nat)
    requires AcceptedOnce(net, o, s0) && SameFor(net, net', o)
    ensures AcceptedOnce(net', o, s0)
  {
    forall u, x: Lsa | u in net'.sites && x.origin == o && x.sequence > s0 ensures AcceptedOnceAt(net', u, x) {
      assert AcceptedOnceAt(net, u, x);
      if u != o {
        assert Lookup(net'.sites[u].node.lsas, o) == Lookup(net.sites[u].node.lsas, o);
      }
    }
  }

  lemma AcceptedOnceLossyStep(net: Net, ev: Event, net': Net, o: NodeId, s0: nat)
    requires Enabled(net, ev) && SparesEntry(net, ev, o) && net' == Next(net, ev)
    requires Grounded(net) && AcceptedOnce(net, o, s0)
    ensures AcceptedOnce(net', o, s0)
  {
    if Quiet(ev) {
      HasLsaEffect(net, ev);
      AcceptedOnceStep(net, ev, net', o, s0);
    } else {
      NotQuietIsSame(net, ev, o);
      AcceptedOnceWhenSame(net, net', o, s0);
    }
  }

  /** No clean-up of the run drops o's entry at another node. */
  ghost predicate SparingRun(net: Net, evs: seq<Event>, o: NodeId)
    decreases |evs|
  {
    evs == [] || (Enabled(net, evs[0]) && SparesEntry(net, evs[0], o) && SparingRun(Next(net, evs[0]), evs[1..], o))
  }

  lemma {:induction false} AcceptedOnceRun(net: Net, evs: seq<Event>, o: NodeId, s0: nat)
    requires Runs(net, evs) && Inv(net) && AcceptedOnce(net, o, s0) && SparingRun(net, evs, o)
    ensures AcceptedOnce(After(net, evs), o, s0)
    decreases |evs|
  {
    if evs != [] {
      InvStep(net, evs[0]);
      AcceptedOnceLossyStep(net, evs[0], Next(net, evs[0]), o, s0);
      AcceptedOnceRun(Next(net, evs[0]), evs[1..], o, s0);
    }
  }

  lemma AcceptedOnceAtStart(net: Net, o: NodeId)
    requires Reachable(net) && o in net.sites
    ensures AcceptedOnce(net, o, net.sites[o].node.lsaSequence)
  {
    ReachableInv(net);
    ReachableHistory(net);
    forall u, y: Lsa | u in net.sites && y.origin == o && y.sequence > net.sites[o].node.lsaSequence
      ensures AcceptedOnceAt(net, u, y)
    {
      assert y !in net.published;
    }
  }

  /** From any reachable state on, as long as no entry of its origin ages away, with loss, duplication
      and links that come and go: an advertisement generated from then on is accepted at most once
      by every node, and never by its origin. */
  lemma AcceptedAtMostOnce(start: Net, evs: seq<Event>, x: Lsa, u: NodeId)
    requires Reachable(start) && Runs(start, evs) && SparingRun(start, evs, x.origin)
    requires x.origin in start.sites && x.sequence > start.sites[x.origin].node.lsaSequence
    requires u in After(start, evs).sites
    ensures After(start, evs).sites[u].accepted[x] <= 1
    ensures u == x.origin ==> After(start, evs).sites[u].accepted[x] == 0
  {
    ReachableInv(start);
    AcceptedOnceAtStart(start, x.origin);
    AcceptedOnceRun(start, evs, x.origin, start.sites[x.origin].node.lsaSequence);
    assert AcceptedOnceAt(After(start, evs), u, x);
  }

  // ----- copies bounded by directed edges

  /** The directed edges that leave the nodes of s. */
  ghost function Edges<T>(graph: map<T, set<T>>, s: set<T>): set<(T, T)> {
    set u, v | u in s && u in graph && v in graph[u] :: (u, v)
  }

  lemma EdgesGrow<T(!new)>(graph: map<T, set<T>>, s: set<T>, u: T)
    requires u in graph && u !in s
    ensures |Edges(graph, s + {u})| == |Edges(graph, s)| + |graph[u]|
  {
    var more := set v <- graph[u] :: (u, v);
    var edge := v => (u, v);
    ImageSize(graph[u], edge);
    assert more == set v <- graph[u] :: edge(v);
    assert Edges(graph, s + {u}) == Edges(graph, s) + more;
    assert Edges(graph, s) !! more;
  }

  /** The nodes that have sent x out: its origin once it is published, and whoever accepted it. */
  ghost function Forwarders(net: Net, x: Lsa): set<NodeId> {
    set u <- net.sites | (u == x.origin && x in net.published) || x in net.sites[u].accepted
  }

  ghost predicate SendsBounded(net: Net, graph: Graph, x: Lsa) {
    net.sends[x] <= |Edges(graph, Forwarders(net, x))|
  }

  /** Forwarders can only grow by the node u whose acceptance or publication of x is new. */
  lemma ForwardersChange(net: Net, net': Net, u: NodeId, x: Lsa, added: bool)
    requires u in net.sites && OthersSame(net, net', u)
    requires x.origin != u ==> (x in net'.published <==> x in net.published)
    requires (u == x.origin && x in net'.published) || x in net'.sites[u].accepted
        <==> added || (u == x.origin && x in net.published) || x in net.sites[u].accepted
    ensures Forwarders(net', x) == Forwarders(net, x) + (if added then {u} else {})
  {
    forall v | v in net.sites && v != u ensures v in Forwarders(net', x) <==> v in Forwarders(net, x) {
      assert net'.sites[v] == net.sites[v];
    }
  }

  lemma SendsWhenTaken(net: Net, net': Net, q: LsaPacket, first: bool, graph: Graph, s0: nat)
    requires q.to in net.sites && q.from in net.sites && q in net.lsaLog && ReceiveEffect(net, net', q, first)
    requires Grounded(net) && Settled(net, graph) && AcceptedOnce(net, q.lsa.origin, s0) && q.lsa.sequence > s0
    requires Takes(net.sites[q.to].node, q.lsa) && SendsBounded(net, graph, q.lsa)
    ensures SendsBounded(net', graph, q.lsa)
  {
    TakenIsNew(net, q, q.lsa.origin, s0);
    GroundedSite(net, q.to);
    ForwardersChange(net, net', q.to, q.lsa, true);
    EdgesGrow(graph, Forwarders(net, q.lsa), q.to);
    PassedWithinTargets(net, q, graph);
  }

  lemma SendsWhenOther(net: Net, net': Net, q: LsaPacket, first: bool, graph: Graph, x: Lsa)
    requires q.to in net.sites && q.from in net.sites && ReceiveEffect(net, net', q, first)
    requires x != q.lsa || !Takes(net.sites[q.to].node, q.lsa)
    requires SendsBounded(net, graph, x)
    ensures SendsBounded(net', graph, x)
  {
    assert net'.sites[q.to].accepted[x] == net.sites[q.to].accepted[x];
    ForwardersChange(net, net', q.to, x, false);
    assert !Takes(net.sites[q.to].node, q.lsa) ==> Passed(net, q) == {};
    assert net'.sends[x] == net.sends[x];
  }

  lemma SendsStepReceive(net: Net, net': Net, q: LsaPacket, first: bool, graph: Graph, x: Lsa, s0: nat)
    requires Enabled(net, LsaIn(q, first)) && ReceiveEffect(net, net', q, first)
    requires Grounded(net) && Settled(net, graph) && AcceptedOnce(net, x.origin, s0) && x.sequence > s0
    requires SendsBounded(net, graph, x)
    ensures SendsBounded(net', graph, x)
  {
    if x == q.lsa && Takes(net.sites[q.to].node, q.lsa) {
      SendsWhenTaken(net, net', q, first, graph, s0);
    } else {
      SendsWhenOther(net, net', q, first, graph, x);
    }
  }

  lemma PassedWithinTargets(net: Net, q: LsaPacket, graph: Graph)
    requires q.to in net.sites && q.from in net.sites && Settled(net, graph)
    ensures |Passed(net, q)| <= |graph[q.to]|
  {
    assert Passed(net, q) <= graph[q.to];
    SubsetSmaller(Passed(net, q), graph[q.to]);
  }

  lemma SendsWhenPublished(net: Net, net': Net, u: NodeId, x: Lsa, graph: Graph, s0: nat)
    requires u in net.sites && PublishEffect(net, net', u, x) && x.origin == u && x !in net.published
    requires Settled(net, graph) && AcceptedOnce(net, u, s0) && x.sequence > s0 && SendsBounded(net, graph, x)
    ensures SendsBounded(net', graph, x)
  {
    assert AcceptedOnceAt(net, u, x);
    ForwardersChange(net, net', u, x, true);
    EdgesGrow(graph, Forwarders(net, x), u);
  }

  lemma SendsWhenOtherPublished(net: Net, net': Net, u: NodeId, y: Lsa, x: Lsa, graph: Graph)
    requires u in net.sites && PublishEffect(net, net', u, y) && x != y && SendsBounded(net, graph, x)
    ensures SendsBounded(net', graph, x)
  {
    ForwardersChange(net, net', u, x, false);
    assert net'.sends[x] == net.sends[x];
  }

  lemma SendsStepPublish(net: Net, net': Net, u: NodeId, y: Lsa, graph: Graph, x: Lsa, s0: nat)
    requires u in net.sites && y in net.sites[u].drafts && PublishEffect(net, net', u, y)
    requires DraftsAccounted(net) && Settled(net, graph) && AcceptedOnce(net, x.origin, s0) && x.sequence > s0
    requires SendsBounded(net, graph, x)
    ensures SendsBounded(net', graph, x)
  {
    if x == y {
      SendsWhenPublished(net, net', u, x, graph, s0);
    } else {
      SendsWhenOtherPublished(net, net', u, y, x, graph);
    }
  }

  lemma SendsStep(net: Net, ev: Event, net': Net, graph: Graph, x: Lsa, s0: nat)
    requires Enabled(net, ev) && Quiet(ev) && LsaEffect(net, ev, net')
    requires Grounded(net) && Settled(net, graph) && AcceptedOnce(net, x.origin, s0) && x.sequence > s0
    requires SendsBounded(net, graph, x)
    ensures SendsBounded(net', graph, x)
  {
    if ev.LsaIn? {
      SendsStepReceive(net, net', ev.q, ev.first, graph, x, s0);
    } else if ev.PublishAt? {
      SendsStepPublish(net, net', ev.u, ev.lsa, graph, x, s0);
    } else {
      SendsUntouched(net, ev, net', graph, x);
    }
  }

  lemma SendsUntouched(net: Net, ev: Event, net': Net, graph: Graph, x: Lsa)
    requires Enabled(net, ev) && Quiet(ev) && LsaEffect(net, ev, net') && !ev.LsaIn? && !ev.PublishAt?
    requires SendsBounded(net, graph, x)
    ensures SendsBounded(net', graph, x)
  {
    forall u | u in net.sites ensures u in net'.sites && net'.sites[u].accepted == net.sites[u].accepted {
      AcceptedKeptOtherwise(net, ev, net', u);
    }
    assert Forwarders(net', x) == Forwarders(net, x);
  }

  lemma SendsWhenSame(net: Net, net': Net, graph: Graph, x: Lsa)
    requires SameFor(net, net', x.origin) && SendsBounded(net, graph, x)
    ensures SendsBounded(net', graph, x)
  {
    forall v | v in net.sites ensures v in Forwarders(net', x) <==> v in Forwarders(net, x) {
      assert net'.sites[v].accepted == net.sites[v].accepted;
    }
    assert Forwarders(net', x) == Forwarders(net, x);
  }

  lemma SendsLossyStep(net: Net, ev: Event, net': Net, graph: Graph, x: Lsa, s0: nat)
    requires Enabled(net, ev) && SparesEntry(net, ev, x.origin) && net' == Next(net, ev)
    requires Grounded(net) && Settled(net, graph) && AcceptedOnce(net, x.origin, s0) && x.sequence > s0
    requires SendsBounded(net, graph, x)
    ensures SendsBounded(net', graph, x)
  {
    if Quiet(ev) {
      HasLsaEffect(net, ev);
      SendsStep(net, ev, net', graph, x, s0);
    } else {
      NotQuietIsSame(net, ev, x.origin);
      SendsWhenSame(net, net', graph, x);
    }
  }

  /** A run of which no clean-up drops o's entry at another node and during which the flooding graph
      does not change; packets may be lost. */
  ghost predicate SettledSparingRun(net: Net, evs: seq<Event>, graph: Graph, o: NodeId)
    decreases |evs|
  {
    && Settled(net, graph)
    && (evs != [] ==>
          Enabled(net, evs[0]) && SparesEntry(net, evs[0], o) &&
              SettledSparingRun(Next(net, evs[0]), evs[1..], graph, o))
  }

  lemma {:induction false} BoundsRun(net: Net, evs: seq<Event>, graph: Graph, x: Lsa, s0: nat)
    requires SettledSparingRun(net, evs, graph, x.origin) && Inv(net) && AcceptedOnce(net, x.origin, s0)
    requires x.sequence > s0 && SendsBounded(net, graph, x)
    ensures Runs(net, evs) && Inv(After(net, evs))
    ensures AcceptedOnce(After(net, evs), x.origin, s0) && SendsBounded(After(net, evs), graph, x)
    decreases |evs|
  {
    if evs != [] {
      InvStep(net, evs[0]);
      SendsLossyStep(net, evs[0], Next(net, evs[0]), graph, x, s0);
      AcceptedOnceLossyStep(net, evs[0], Next(net, evs[0]), x.origin, s0);
      BoundsRun(Next(net, evs[0]), evs[1..], graph, x, s0);
    }
  }

  // ----- nothing is accepted or copied before it exists

  ghost predicate HistoryInv(net: Net) {
    && (forall u <- net.sites, x: Lsa | x in net.sites[u].accepted :: x in net.published)
    && (forall x: Lsa | x !in net.published :: net.sends[x] == 0)
  }

  lemma HistoryAfterClean(net: Net, u: NodeId)
    requires u in net.sites && HistoryInv(net)
    ensures HistoryInv(NextClean(net, u))
  {
    var net' := NextClean(net, u);
    OneSite(net, u, net'.sites[u], net');
    HistoryUntouched(net, net');
  }

  lemma HistoryStep(net: Net, ev: Event, net': Net)
    requires Enabled(net, ev) && Grounded(net) && HistoryInv(net) && net' == Next(net, ev)
    ensures HistoryInv(net')
  {
    if ev.CleanAt? {
      HistoryAfterClean(net, ev.u);
    } else if ev.LoseLsa? {
      HistoryUntouched(net, net');
    } else {
      HasLsaEffect(net, ev);
      HistoryKept(net, ev, net');
    }
  }

  lemma HistoryUntouched(net: Net, net': Net)
    requires HistoryInv(net) && net'.sites.Keys == net.sites.Keys
    requires net'.published == net.published && net'.sends == net.sends
    requires forall u <- net.sites :: net'.sites[u].accepted == net.sites[u].accepted
    ensures HistoryInv(net')
  {
  }

  lemma HistoryKept(net: Net, ev: Event, net': Net)
    requires Enabled(net, ev) && Quiet(ev) && LsaEffect(net, ev, net') && StoresPublished(net) && HistoryInv(net)
    ensures HistoryInv(net')
  {
    forall u, x: Lsa | u in net'.sites && x in net'.sites[u].accepted ensures x in net'.published {
      if ev.LsaIn? {
        AcceptedWasPublished(net, net', ev.q, ev.first, u, x);
      } else {
        AcceptedKeptOtherwise(net, ev, net', u);
      }
    }
    forall x: Lsa | x !in net'.published ensures net'.sends[x] == 0 {
      if ev.LsaIn? {
        assert ev.q.lsa in net.published;
      }
    }
  }

  lemma AcceptedWasPublished(net: Net, net': Net, q: LsaPacket, first: bool, u: NodeId, x: Lsa)
    requires q.to in net.sites && q.from in net.sites && q.lsa in net.published && ReceiveEffect(net, net', q, first)
    requires HistoryInv(net) && u in net.sites && x in net'.sites[u].accepted
    ensures x in net'.published
  {
    if u != q.to || x != q.lsa {
      assert x in net.sites[u].accepted;
    }
  }

  lemma {:induction false} HistoryRun(net: Net, evs: seq<Event>)
    requires Runs(net, evs) && Inv(net) && HistoryInv(net)
    ensures HistoryInv(After(net, evs))
    decreases |evs|
  {
    if evs != [] {
      InvStep(net, evs[0]);
      HistoryStep(net, evs[0], Next(net, evs[0]));
      HistoryRun(Next(net, evs[0]), evs[1..]);
    }
  }

  lemma ReachableHistory(net: Net)
    requires Reachable(net)
    ensures HistoryInv(net)
  {
    var start, evs :| Initial(start) && Runs(start, evs) && After(start, evs) == net;
    HistoryRun(start, evs);
  }

  /** Over any settled stretch of any run, with packets lost and duplicated at will: the copies ever sent of
      an advertisement generated in it are at most the directed edges leaving the nodes that sent
      it on, hence at most the directed edges of the graph. */
  lemma FloodIsBounded(start: Net, evs: seq<Event>, graph: Graph, x: Lsa)
    requires Reachable(start) && SettledSparingRun(start, evs, graph, x.origin)
    requires x.origin in start.sites && x.sequence > start.sites[x.origin].node.lsaSequence
    ensures Runs(start, evs)
    ensures var net := After(start, evs);
      && net.sends[x] <= |Edges(graph, Forwarders(net, x))| <= |Edges(graph, graph.Keys)|
  {
    var s0 := start.sites[x.origin].node.lsaSequence;
    ReachableInv(start);
    ReachableHistory(start);
    AcceptedOnceAtStart(start, x.origin);
    assert x !in start.published;
    BoundsRun(start, evs, graph, x, s0);
    var net := After(start, evs);
    SubsetSmaller(Edges(graph, Forwarders(net, x)), Edges(graph, graph.Keys));
  }

  // ----- termination

  /** u has not yet stored x or anything newer of its origin. */
  predicate Missing(net: Net, u: NodeId, x: Lsa)
    requires u in net.sites
  {
    u != x.origin && Accepts(net.sites[u].node.lsas, x)
  }

  ghost function MissingPairs(net: Net): set<(NodeId, Lsa)> {
    set u <- net.sites, x <- net.generated | Missing(net, u, x) :: (u, x)
  }

  /** First copies in flight, plus one round of copies for everything anyone still misses. */
  ghost function Potential(net: Net): nat {
    |net.lsaFlight| + |net.sites.Keys| * |MissingPairs(net)|
  }

  /** Deliveries of first copies. */
  function FirstDeliveries(evs: seq<Event>): nat {
    if evs == [] then 0 else (if evs[0].LsaIn? && evs[0].first then 1 else 0) + FirstDeliveries(evs[1..])
  }

  /** Nothing new is generated or published and nothing ages away; packets may still be
      duplicated and lost, and everything else may happen. */
  predicate OnlyFlooding(ev: Event) { !ev.GenerateAt? && !ev.PublishAt? && !ev.CleanAt? }

  /** t new copies outweighed by one missing pair fewer. */
  lemma PairOutweighsCopies(n: nat, t: nat, m: nat, m': nat)
    requires t <= n && m' < m
    ensures t + n * m' <= n * m
  {
    assert n * m' <= n * (m - 1);
    assert n * (m - 1) == n * m - n;
  }

  lemma NoMoreMissing(n: nat, m: nat, m': nat)
    requires m' <= m
    ensures n * m' <= n * m
  {
  }

  lemma MissingAfterReceive(net: Net, net': Net, q: LsaPacket, first: bool)
    requires q.to in net.sites && q.from in net.sites && ReceiveEffect(net, net', q, first) && q.lsa in net.generated
    requires net.sites[q.to].node.id == q.to && net.sites[q.to].node.peers.Keys <= net.sites.Keys
    ensures if Takes(net.sites[q.to].node, q.lsa)
            then |MissingPairs(net')| < |MissingPairs(net)| && |Passed(net, q)| <= |net.sites.Keys|
            else |MissingPairs(net')| <= |MissingPairs(net)| && |Passed(net, q)| == 0
  {
    var m, m' := MissingPairs(net), MissingPairs(net');
    ReceiveShrinksMissing(net, net', q, first);
    if Takes(net.sites[q.to].node, q.lsa) {
      SubsetSmaller(m', m - {(q.to, q.lsa)});
      SubsetSmaller(Passed(net, q), net.sites.Keys);
    } else {
      assert Passed(net, q) == {};
      SubsetSmaller(m', m);
    }
  }

  lemma PotentialAfterReceive(net: Net, net': Net, q: LsaPacket, first: bool)
    requires Enabled(net, LsaIn(q, first)) && ReceiveEffect(net, net', q, first) && q.lsa in net.generated
    requires net.sites[q.to].node.id == q.to && net.sites[q.to].node.peers.Keys <= net.sites.Keys
    ensures Potential(net') + (if first then 1 else 0) <= Potential(net)
  {
    MissingAfterReceive(net, net', q, first);
    var n, m, m' := |net.sites.Keys|, |MissingPairs(net)|, |MissingPairs(net')|;
    assert |net'.lsaFlight| + (if first then 1 else 0) == |net.lsaFlight| + |Passed(net, q)|;
    if Takes(net.sites[q.to].node, q.lsa) {
      PairOutweighsCopies(n, |Passed(net, q)|, m, m');
    } else {
      NoMoreMissing(n, m, m');
    }
  }

  lemma StillMissing(net: Net, net': Net, q: LsaPacket, first: bool, u: NodeId, x: Lsa)
    requires q.to in net.sites && q.from in net.sites && ReceiveEffect(net, net', q, first)
    requires u in net.sites && Missing(net', u, x)
    ensures Missing(net, u, x)
  {
    if u == q.to && Takes(net.sites[u].node, q.lsa) && x.origin == q.lsa.origin && x.origin in net.sites[u].node.lsas {
      assert Newer(q.lsa, net.sites[u].node.lsas[x.origin]);
    }
  }

  lemma ReceiveShrinksMissing(net: Net, net': Net, q: LsaPacket, first: bool)
    requires q.to in net.sites && q.from in net.sites && ReceiveEffect(net, net', q, first) && q.lsa in net.generated
    requires net.sites[q.to].node.id == q.to
    ensures MissingPairs(net') <= MissingPairs(net)
    ensures Takes(net.sites[q.to].node, q.lsa) ==>
      (q.to, q.lsa) in MissingPairs(net) && (q.to, q.lsa) !in MissingPairs(net')
  {
    forall u, x | u in net'.sites && x in net'.generated && Missing(net', u, x) ensures Missing(net, u, x) {
      StillMissing(net, net', q, first, u, x);
    }
    if Takes(net.sites[q.to].node, q.lsa) {
      assert Missing(net, q.to, q.lsa) && !Missing(net', q.to, q.lsa);
    }
  }

  lemma MissingUnchanged(net: Net, net': Net)
    requires net'.sites.Keys == net.sites.Keys && net'.generated == net.generated
    requires forall u <- net.sites :: net'.sites[u].node.lsas == net.sites[u].node.lsas
    ensures MissingPairs(net') == MissingPairs(net)
  {
    forall u, x | u in net.sites && x in net.generated ensures Missing(net', u, x) <==> Missing(net, u, x) {
    }
  }

  lemma PotentialUnchanged(net: Net, net': Net)
    requires LsasKept(net, net')
    ensures Potential(net') == Potential(net)
  {
    assert forall u <- net.sites :: SameLsas(net.sites[u], net'.sites[u]);
    MissingUnchanged(net, net');
  }

  lemma ReceivedFacts(net: Net, q: LsaPacket)
    requires Grounded(net) && q.to in net.sites && q in net.lsaLog
    ensures q.lsa in net.generated
    ensures net.sites[q.to].node.id == q.to && net.sites[q.to].node.peers.Keys <= net.sites.Keys
  {
    GroundedSite(net, q.to);
  }

  lemma PotentialAfterLoss(net: Net, q: LsaPacket)
    requires q in net.lsaFlight
    ensures Potential(net.(lsaFlight := net.lsaFlight - multiset{q})) <= Potential(net)
  {
    MissingUnchanged(net, net.(lsaFlight := net.lsaFlight - multiset{q}));
  }

  lemma PotentialStep(net: Net, ev: Event, net': Net)
    requires Enabled(net, ev) && OnlyFlooding(ev) && Grounded(net) && net' == Next(net, ev)
    ensures Potential(net') + (if ev.LsaIn? && ev.first then 1 else 0) <= Potential(net)
  {
    if ev.LsaIn? {
      ReceiveHasEffect(net, ev.q, ev.first);
      ReceivedFacts(net, ev.q);
      PotentialAfterReceive(net, net', ev.q, ev.first);
    } else if ev.LoseLsa? {
      PotentialAfterLoss(net, ev.q);
    } else {
      LsasKeptOtherwise(net, ev);
      PotentialUnchanged(net, net');
    }
  }

  lemma {:induction false} PotentialRun(start: Net, evs: seq<Event>)
    requires Runs(start, evs) && (forall ev <- evs :: OnlyFlooding(ev)) && Inv(start)
    ensures FirstDeliveries(evs) + Potential(After(start, evs)) <= Potential(start)
    decreases |evs|
  {
    if evs != [] {
      var next := Next(start, evs[0]);
      InvStep(start, evs[0]);
      PotentialStep(start, evs[0], next);
      PotentialRun(next, evs[1..]);
    }
  }

  /** Flooding stops: from any reachable state, once nothing new is published, at most
      Potential(start) first copies are ever delivered, and each of them brings the remaining
      potential down. */
  lemma FloodTerminates(start: Net, evs: seq<Event>)
    requires Reachable(start) && Runs(start, evs) && (forall ev <- evs :: OnlyFlooding(ev))
    ensures FirstDeliveries(evs) + Potential(After(start, evs)) <= Potential(start)
  {
    ReachableInv(start);
    PotentialRun(start, evs);
  }
}
