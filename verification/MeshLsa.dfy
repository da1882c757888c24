/** Where the advertisements in a network come from: who generated them, that their sequence
    numbers are unique, and that the links they list were really established. */
module MeshLsa {
  import opened Common
  import opened LinkState
  import opened Mesh
  import opened NodeStates
  import MeshHandshake
  import MeshState
  import Noise
  import Session

  // ----- generation

  ghost predicate HighestGenerated(net: Net, o: NodeId)
    requires o in net.sites
  {
    exists x <- net.generated :: x.origin == o && x.sequence == net.sites[o].node.lsaSequence
  }

  ghost predicate NumbersUnique(generated: set<Lsa>) {
    forall x <- generated, y <- generated | x.origin == y.origin && x.sequence == y.sequence :: x == y
  }

  ghost predicate NumbersUsed(net: Net) {
    && (forall x <- net.generated ::
          x.origin in net.sites && 1 <= x.sequence <= net.sites[x.origin].node.lsaSequence)
    && NumbersUnique(net.generated)
    && (forall o <- net.sites | net.sites[o].node.lsaSequence > 0 :: HighestGenerated(net, o))
  }

  /** Every advertisement is either still a draft of its origin or published. */
  ghost predicate DraftsAccounted(net: Net) {
    && net.published <= net.generated
    && (forall x <- net.generated :: x.origin in net.sites && (x in net.published || x in net.sites[x.origin].drafts))
    && (forall u <- net.sites, x <- net.sites[u].drafts :: x.origin == u && x in net.generated && x !in net.published)
  }

  /** Only published advertisements are stored and sent, stored ones under their origin. */
  ghost predicate StoresPublished(net: Net) {
    DbsPublished(net) && PacketsPublished(net)
  }

  ghost predicate DbsPublished(net: Net) {
    forall u <- net.sites, o <- net.sites[u].node.lsas ::
      net.sites[u].node.lsas[o].origin == o && net.sites[u].node.lsas[o] in net.published
  }

  ghost predicate PacketsPublished(net: Net) {
    && (forall q <- net.lsaLog :: q.lsa in net.published && q.from in net.sites && q.to in net.sites)
    && (forall q <- net.lsaFlight :: q in net.lsaLog)
  }

  ghost predicate LsaInv(net: Net) {
    NumbersUsed(net) && DraftsAccounted(net) && StoresPublished(net)
  }

  // ----- the four events that touch link state, as relations

  predicate OthersSame(net: Net, net': Net, u: NodeId) {
    net'.sites.Keys == net.sites.Keys && forall v <- net.sites | v != u :: net'.sites[v] == net.sites[v]
  }

  ghost predicate GenerateEffect(net: Net, net': Net, u: NodeId, x: Lsa)
    requires u in net.sites
  {
    && OthersSame(net, net', u)
    && x.origin == u && x.sequence == net.sites[u].node.lsaSequence + 1
    && net'.sites[u].node.lsaSequence == x.sequence
    && net'.sites[u].drafts == net.sites[u].drafts + {x}
    && net'.sites[u].node.lsas == net.sites[u].node.lsas
    && net'.sites[u].accepted == net.sites[u].accepted
    && net'.generated == net.generated + {x} && net'.published == net.published
    && net'.lsaLog == net.lsaLog && net'.lsaFlight == net.lsaFlight && net'.sends == net.sends
  }

  /** q is one of the copies of lsa that u sent to its targets. */
  predicate IsCopy(q: LsaPacket, u: NodeId, targets: set<NodeId>, lsa: Lsa) {
    q.from == u && q.to in targets && q.lsa == lsa
  }

  ghost predicate SendEffect(net: Net, net': Net, flight: multiset<LsaPacket>, u: NodeId, targets: set<NodeId>,
                             lsa: Lsa)
  {
    && (forall q :: q in net'.lsaLog <==> q in net.lsaLog || IsCopy(q, u, targets, lsa))
    && (forall q :: net'.lsaFlight[q] == flight[q] + if IsCopy(q, u, targets, lsa) then 1 else 0)
    && net'.sends == net.sends[lsa := net.sends[lsa] + |targets|]
    && |net'.lsaFlight| == |flight| + |targets|
  }

  ghost predicate PublishEffect(net: Net, net': Net, u: NodeId, lsa: Lsa)
    requires u in net.sites
  {
    && OthersSame(net, net', u)
    && net'.sites[u].node.lsaSequence == net.sites[u].node.lsaSequence
    && net'.sites[u].drafts == net.sites[u].drafts - {lsa}
    && net'.sites[u].node.lsas == net.sites[u].node.lsas[net.sites[u].node.id := lsa]
    && net'.sites[u].accepted == net.sites[u].accepted
    && net'.generated == net.generated && net'.published == net.published + {lsa}
    && SendEffect(net, net', net.lsaFlight, u, FloodTargets(net.sites[u].node), lsa)
  }

  function Consumed(net: Net, q: LsaPacket, first: bool): multiset<LsaPacket> {
    if first then net.lsaFlight - multiset{q} else net.lsaFlight
  }

  function Passed(net: Net, q: LsaPacket): set<NodeId>
    requires q.to in net.sites && q.from in net.sites
  {
    ReceiveLsa(net.sites[q.to].node, q.lsa, UnicastSource(net.sites[q.from].place)).1
  }

  ghost predicate ReceiveEffect(net: Net, net': Net, q: LsaPacket, first: bool)
    requires q.to in net.sites && q.from in net.sites
  {
    && OthersSame(net, net', q.to)
    && var s, s' := net.sites[q.to], net'.sites[q.to];
    && s'.node.lsaSequence == s.node.lsaSequence && s'.drafts == s.drafts
    && s'.node.lsas == (if Takes(s.node, q.lsa) then s.node.lsas[q.lsa.origin := q.lsa] else s.node.lsas)
    && s'.accepted == (if Takes(s.node, q.lsa) then s.accepted + multiset{q.lsa} else s.accepted)
    && net'.generated == net.generated && net'.published == net.published
    && SendEffect(net, net', Consumed(net, q, first), q.to, Passed(net, q), q.lsa)
  }

  lemma SpreadCopies(u: NodeId, targets: set<NodeId>, lsa: Lsa)
    ensures forall q :: q in Spread(u, targets, lsa) <==> IsCopy(q, u, targets, lsa)
    ensures |Spread(u, targets, lsa)| == |targets|
  {
    forall q: LsaPacket | IsCopy(q, u, targets, lsa) ensures q in Spread(u, targets, lsa) {
      assert q == LsaPacket(u, q.to, lsa);
    }
    CopiesCount(Spread(u, targets, lsa), u, targets, lsa);
  }

  lemma {:induction false} CopiesCount(copies: set<LsaPacket>, u: NodeId, targets: set<NodeId>, lsa: Lsa)
    requires forall q :: q in copies <==> IsCopy(q, u, targets, lsa)
    ensures |copies| == |targets|
  {
    if copies != {} {
      var q :| q in copies;
      CopiesCount(copies - {q}, u, targets - {q.to}, lsa);
    } else {
      forall p ensures p !in targets {
        assert !IsCopy(LsaPacket(u, p, lsa), u, targets, lsa);
      }
      assert targets == {};
    }
  }

  lemma GenerateHasEffect(net: Net, u: NodeId)
    requires u in net.sites && net.sites[u].node.id == u
    ensures GenerateEffect(net, NextGenerate(net, u), u, Generate(net.sites[u].node, net.now).1)
  {
    var net' := NextGenerate(net, u);
    OneSite(net, u, net'.sites[u], net');
  }

  lemma SendingHasEffect(net: Net, u: NodeId, targets: set<NodeId>, lsa: Lsa)
    ensures SendEffect(net, Sending(net, u, targets, lsa), net.lsaFlight, u, targets, lsa)
  {
    SpreadCopies(u, targets, lsa);
  }

  lemma PublishHasEffect(net: Net, u: NodeId, lsa: Lsa)
    requires u in net.sites
    ensures PublishEffect(net, NextPublish(net, u, lsa), u, lsa)
  {
    var net' := NextPublish(net, u, lsa);
    OneSite(net, u, net'.sites[u], net');
    SendingHasEffect(net, u, FloodTargets(net.sites[u].node), lsa);
  }

  lemma ReceiveHasEffect(net: Net, q: LsaPacket, first: bool)
    requires q.to in net.sites && q.from in net.sites
    ensures ReceiveEffect(net, NextLsa(net, q, first), q, first)
  {
    var net' := NextLsa(net, q, first);
    OneSite(net, q.to, net'.sites[q.to], net');
    SendingHasEffect(net.(lsaFlight := Consumed(net, q, first)), q.to, Passed(net, q), q.lsa);
  }

  // ----- each keeps the invariant

  lemma NumberIsNew(net: Net, u: NodeId, x: Lsa)
    requires u in net.sites && NumbersUsed(net) && x.origin == u && x.sequence == net.sites[u].node.lsaSequence + 1
    ensures forall y <- net.generated | y.origin == u :: y.sequence < x.sequence
  {
  }

  lemma GenerateNumbers(net: Net, net': Net, u: NodeId, x: Lsa)
    requires u in net.sites && NumbersUsed(net) && GenerateEffect(net, net', u, x)
    ensures NumbersUsed(net') && x !in net.generated
  {
    NumberIsNew(net, u, x);
    UniqueWithOneMore(net.generated, x);
    forall o | o in net'.sites && net'.sites[o].node.lsaSequence > 0 ensures HighestGenerated(net', o) {
      HighestAfterGenerate(net, net', u, x, o);
    }
  }

  lemma UniqueWithOneMore(generated: set<Lsa>, x: Lsa)
    requires NumbersUnique(generated) && forall y <- generated | y.origin == x.origin :: y.sequence < x.sequence
    ensures NumbersUnique(generated + {x})
  {
  }

  lemma HighestAfterGenerate(net: Net, net': Net, u: NodeId, x: Lsa, o: NodeId)
    requires u in net.sites && GenerateEffect(net, net', u, x) && o in net.sites
    requires o == u || (net.sites[o].node.lsaSequence > 0 ==> HighestGenerated(net, o))
    ensures o in net'.sites && (net'.sites[o].node.lsaSequence > 0 ==> HighestGenerated(net', o))
  {
    if o == u {
      assert x in net'.generated;
    }
  }

  lemma GenerateDrafts(net: Net, net': Net, u: NodeId, x: Lsa)
    requires u in net.sites && DraftsAccounted(net) && GenerateEffect(net, net', u, x) && x !in net.generated
    ensures DraftsAccounted(net')
  {
  }

  lemma GenerateStores(net: Net, net': Net, u: NodeId, x: Lsa)
    requires u in net.sites && StoresPublished(net) && GenerateEffect(net, net', u, x)
    ensures StoresPublished(net')
  {
  }

  lemma GenerateInv(net: Net, net': Net, u: NodeId, x: Lsa)
    requires u in net.sites && LsaInv(net) && GenerateEffect(net, net', u, x)
    ensures LsaInv(net')
  {
    GenerateNumbers(net, net', u, x);
    GenerateDrafts(net, net', u, x);
    GenerateStores(net, net', u, x);
  }

  lemma NumbersKept(net: Net, net': Net)
    requires NumbersUsed(net) && net'.generated == net.generated && net'.sites.Keys == net.sites.Keys
    requires forall u <- net.sites :: net'.sites[u].node.lsaSequence == net.sites[u].node.lsaSequence
    ensures NumbersUsed(net')
  {
    forall o | o in net'.sites && net'.sites[o].node.lsaSequence > 0 ensures HighestGenerated(net', o) {
      assert HighestGenerated(net, o);
    }
  }

  lemma PublishDrafts(net: Net, net': Net, u: NodeId, lsa: Lsa)
    requires u in net.sites && lsa in net.sites[u].drafts && DraftsAccounted(net) && PublishEffect(net, net', u, lsa)
    ensures DraftsAccounted(net')
  {
  }

  lemma PublishStores(net: Net, net': Net, u: NodeId, lsa: Lsa)
    requires u in net.sites && net.sites[u].node.id == u && net.sites[u].node.peers.Keys <= net.sites.Keys
    requires lsa.origin == u && StoresPublished(net) && PublishEffect(net, net', u, lsa)
    ensures StoresPublished(net')
  {
  }

  lemma PublishInv(net: Net, net': Net, u: NodeId, lsa: Lsa)
    requires u in net.sites && net.sites[u].node.id == u && net.sites[u].node.peers.Keys <= net.sites.Keys
    requires lsa in net.sites[u].drafts && LsaInv(net) && PublishEffect(net, net', u, lsa)
    ensures LsaInv(net')
  {
    NumbersKept(net, net');
    PublishDrafts(net, net', u, lsa);
    PublishStores(net, net', u, lsa);
  }

  lemma DraftsKept(net: Net, net': Net)
    requires DraftsAccounted(net) && net'.sites.Keys == net.sites.Keys
    requires net'.generated == net.generated && net'.published == net.published
    requires forall u <- net.sites :: net'.sites[u].drafts == net.sites[u].drafts
    ensures DraftsAccounted(net')
  {
  }

  lemma ReceiveStores(net: Net, net': Net, q: LsaPacket, first: bool)
    requires q.to in net.sites && q.from in net.sites && q in net.lsaLog
    requires net.sites[q.to].node.peers.Keys <= net.sites.Keys && StoresPublished(net)
    requires ReceiveEffect(net, net', q, first)
    ensures StoresPublished(net')
  {
    ReceiveDbs(net, net', q, first);
    ReceivePackets(net, net', q, first);
  }

  lemma ReceiveDbs(net: Net, net': Net, q: LsaPacket, first: bool)
    requires q.to in net.sites && q.from in net.sites && q.lsa in net.published
    requires DbsPublished(net) && ReceiveEffect(net, net', q, first)
    ensures DbsPublished(net')
  {
    forall u, o | u in net'.sites && o in net'.sites[u].node.lsas
      ensures net'.sites[u].node.lsas[o].origin == o && net'.sites[u].node.lsas[o] in net'.published
    {
      assert u != q.to ==> net'.sites[u] == net.sites[u];
    }
  }

  lemma ReceivePackets(net: Net, net': Net, q: LsaPacket, first: bool)
    requires q.to in net.sites && q.from in net.sites && q in net.lsaLog
    requires net.sites[q.to].node.peers.Keys <= net.sites.Keys && PacketsPublished(net)
    requires ReceiveEffect(net, net', q, first)
    ensures PacketsPublished(net')
  {
  }

  lemma ReceiveKeeps(net: Net, net': Net, q: LsaPacket, first: bool)
    requires q.to in net.sites && q.from in net.sites && ReceiveEffect(net, net', q, first)
    ensures forall u <- net.sites ::
      net'.sites[u].node.lsaSequence == net.sites[u].node.lsaSequence && net'.sites[u].drafts == net.sites[u].drafts
  {
  }

  lemma ReceiveInv(net: Net, net': Net, q: LsaPacket, first: bool)
    requires q.to in net.sites && q.from in net.sites && q in net.lsaLog
    requires net.sites[q.to].node.peers.Keys <= net.sites.Keys && LsaInv(net) && ReceiveEffect(net, net', q, first)
    ensures LsaInv(net')
  {
    ReceiveKeeps(net, net', q, first);
    NumbersKept(net, net');
    DraftsKept(net, net');
    ReceiveStores(net, net', q, first);
  }

  lemma CleanInv(net: Net, net': Net, u: NodeId)
    requires u in net.sites && LsaInv(net) && net' == NextClean(net, u)
    ensures LsaInv(net')
  {
    OneSite(net, u, net'.sites[u], net');
    NumbersKept(net, net');
    DraftsKept(net, net');
    CleanStores(net, net', u);
  }

  lemma CleanStores(net: Net, net': Net, u: NodeId)
    requires u in net.sites && StoresPublished(net) && net' == NextClean(net, u)
    ensures StoresPublished(net')
  {
    OneSite(net, u, net'.sites[u], net');
    assert net'.sites[u].node.lsas == Cleaned(net.sites[u].node.lsas, net.now / SECOND);
  }

  lemma LsaInvWhenKept(net: Net, net': Net)
    requires LsaInv(net) && LsasKept(net, net')
    ensures LsaInv(net')
  {
    assert forall u <- net.sites :: SameLsas(net.sites[u], net'.sites[u]);
    NumbersKept(net, net');
    DraftsKept(net, net');
  }

  predicate TouchesLsas(ev: Event) {
    ev.GenerateAt? || ev.PublishAt? || ev.LsaIn? || ev.CleanAt? || ev.LoseLsa?
  }

  lemma LsasKeptOtherwise(net: Net, ev: Event)
    requires Enabled(net, ev) && !TouchesLsas(ev)
    ensures LsasKept(net, Next(net, ev))
  {
    if ev.HelloIn? {
      HelloFrame(net, ev.to, ev.from);
    } else if ev.HandshakeIn? {
      HandshakeFrame(net, ev.p, ev.first);
    } else if ev.ScanAt? {
      ScanFrame(net, ev.u);
    } else if ev.EvictAt? {
      EvictFrame(net, ev.u);
    } else if ev.PingAt? {
      PingFrame(net, ev.u);
    } else if ev.PongIn? {
      PongFrame(net, ev.to, ev.from, ev.sequence);
    } else if ev.CountAt? {
      CountFrame(net, ev.u);
    }
  }

  lemma LoseInv(net: Net, net': Net, q: LsaPacket)
    requires LsaInv(net) && net' == net.(lsaFlight := net.lsaFlight - multiset{q})
    ensures LsaInv(net')
  {
    NumbersKept(net, net');
    DraftsKept(net, net');
  }

  /** What the link state proofs need of a state. */
  ghost predicate Grounded(net: Net) {
    LsaInv(net) && MeshState.Coherent(net)
  }

  lemma GroundedSite(net: Net, u: NodeId)
    requires Grounded(net) && u in net.sites
    ensures net.sites[u].node.id == u && net.sites[u].node.peers.Keys <= net.sites.Keys
  {
    assert MeshState.CoherentSite(net, u);
  }

  lemma LsaInvAfterFlooding(net: Net, ev: Event, net': Net)
    requires Enabled(net, ev) && Grounded(net) && net' == Next(net, ev)
    requires ev.PublishAt? || ev.LsaIn?
    ensures LsaInv(net')
  {
    if ev.PublishAt? {
      GroundedSite(net, ev.u);
      PublishHasEffect(net, ev.u, ev.lsa);
      PublishInv(net, net', ev.u, ev.lsa);
    } else {
      GroundedSite(net, ev.q.to);
      ReceiveHasEffect(net, ev.q, ev.first);
      ReceiveInv(net, net', ev.q, ev.first);
    }
  }

  lemma LsaInvStep(net: Net, ev: Event, net': Net)
    requires Enabled(net, ev) && Grounded(net) && net' == Next(net, ev)
    ensures LsaInv(net')
  {
    if ev.GenerateAt? {
      GroundedSite(net, ev.u);
      GenerateHasEffect(net, ev.u);
      GenerateInv(net, net', ev.u, Generate(net.sites[ev.u].node, net.now).1);
    } else if ev.PublishAt? || ev.LsaIn? {
      LsaInvAfterFlooding(net, ev, net');
    } else if ev.CleanAt? {
      CleanInv(net, net', ev.u);
    } else if ev.LoseLsa? {
      LoseInv(net, net', ev.q);
    } else {
      LsasKeptOtherwise(net, ev);
      LsaInvWhenKept(net, net');
    }
  }

  // ----- backed adjacency

  function Greater(a: NodeId, b: NodeId): NodeId { if a > b then a else b }

  function Smaller(a: NodeId, b: NodeId): NodeId { if a > b then b else a }

  /** All sessions are with nodes of the network. */
  ghost predicate SessionsKnown(net: Net) {
    forall u <- net.sites :: net.sites[u].node.sessions.Keys <= net.sites.Keys
  }

  lemma SessionsKnownStep(net: Net, ev: Event, net': Net)
    requires Enabled(net, ev) && MeshHandshake.KnownNodes(net) && SessionsKnown(net)
    requires MeshHandshake.StepEffect(net, ev, net')
    ensures SessionsKnown(net')
  {
    forall u, p | u in net'.sites && p in net'.sites[u].node.sessions ensures p in net'.sites {
      SessionKnown(net, ev, net', u, p);
    }
  }

  lemma SessionKnown(net: Net, ev: Event, net': Net, u: NodeId, p: NodeId)
    requires Enabled(net, ev) && MeshHandshake.KnownNodes(net) && SessionsKnown(net)
    requires MeshHandshake.StepEffect(net, ev, net') && u in net'.sites && p in net'.sites[u].node.sessions
    ensures p in net'.sites
  {
    assert View(net', u, p).Some?;
    if !ev.HelloIn? && !ev.HandshakeIn? && !ev.EvictAt? {
      assert SameSession(net.sites[u], net'.sites[u]);
    }
    assert View(net, u, p).Some? ==> p in net.sites[u].node.sessions;
  }

  lemma OnlyGenerateGenerates(net: Net, ev: Event)
    requires Enabled(net, ev) && !ev.GenerateAt?
    ensures Next(net, ev).generated == net.generated
  {
  }

  /** Everything the LSA theorems need of a reachable state. */
  ghost predicate Inv(net: Net) {
    && MeshHandshake.HandshakeInv(net) && MeshState.Coherent(net)
    && LsaInv(net) && SessionsKnown(net)
  }

  lemma InvStep(net: Net, ev: Event)
    requires Enabled(net, ev) && Inv(net)
    ensures Inv(Next(net, ev))
  {
    var net' := Next(net, ev);
    MeshHandshake.HandshakeInvStep(net, ev);
    MeshState.CoherentStep(net, ev);
    LsaInvStep(net, ev, net');
    SessionsKnownStep(net, ev, net');
  }

  lemma {:induction false} InvRun(net: Net, evs: seq<Event>)
    requires Runs(net, evs) && Inv(net)
    ensures Inv(After(net, evs))
    decreases |evs|
  {
    if evs != [] {
      InvStep(net, evs[0]);
      InvRun(Next(net, evs[0]), evs[1..]);
    }
  }

  lemma ReachableInv(net: Net)
    requires Reachable(net)
    ensures Inv(net)
  {
    var start, evs :| Initial(start) && Runs(start, evs) && After(start, evs) == net;
    InvRun(start, evs);
  }

  /** The session of a with b is in transport mode, and all three messages of the very handshake that
      put it there have been exchanged. */
  ghost predicate Linked(net: Net, a: NodeId, b: NodeId)
    requires a in net.sites
  {
    exists e: Noise.Ephemeral, r: Noise.Ephemeral ::
      && View(net, a, b) == Some(Session.Transport(Noise.Pair(e, r)))
      && Session.Exchanged(net.log, Greater(a, b), Smaller(a, b), e, r)
  }

  lemma EstablishedIsLinked(net: Net, u: NodeId, p: NodeId)
    requires MeshHandshake.HandshakeInv(net) && u in net.sites && p in net.sites && u != p
    requires Established(net.sites[u].node, p)
    ensures Linked(net, u, p)
  {
    var h, l := Greater(u, p), Smaller(u, p);
    assert MeshHandshake.PairAt(net, h, l);
    var t := View(net, u, p).value.transcript;
    assert Session.Sent2(net.log, h, l, t.e, t.r) && Session.Exchanged(net.log, h, l, t.e, t.r);
    assert View(net, u, p) == Some(Session.Transport(Noise.Pair(t.e, t.r)));
  }

  /** In this state the origin of x draws x, and every neighbour it lists is linked to it; it lists
      exactly the established ones. */
  ghost predicate DrawsLinked(net: Net, x: Lsa) {
    var o := x.origin;
    && o in net.sites && x == Generate(net.sites[o].node, net.now).1
    && (forall p :: p in x.neighbors <==> Established(net.sites[o].node, p))
    && forall p <- x.neighbors :: Linked(net, o, p)
  }

  /** Event number i of the run draws x. */
  ghost predicate DrawnAt(start: Net, evs: seq<Event>, i: nat, x: Lsa) {
    i < |evs| && evs[i] == GenerateAt(x.origin) && Runs(start, evs[..i]) && DrawsLinked(After(start, evs[..i]), x)
  }

  lemma DrawingLinks(net: Net, o: NodeId)
    requires Reachable(net) && o in net.sites
    ensures DrawsLinked(net, Generate(net.sites[o].node, net.now).1)
  {
    ReachableInv(net);
    GroundedSite(net, o);
    forall p | p in EstablishedNeighbors(net.sites[o].node) ensures Linked(net, o, p) {
      EstablishedIsLinked(net, o, p);
    }
  }

  lemma NewlyGenerated(net: Net, ev: Event, x: Lsa)
    requires Reachable(net) && Enabled(net, ev) && x in Next(net, ev).generated && x !in net.generated
    ensures ev == GenerateAt(x.origin) && DrawsLinked(net, x)
  {
    if ev.GenerateAt? {
      ReachableInv(net);
      GroundedSite(net, ev.u);
      DrawingLinks(net, ev.u);
    } else {
      OnlyGenerateGenerates(net, ev);
    }
  }

  lemma {:induction false} GeneratedWasDrawn(start: Net, evs: seq<Event>, x: Lsa)
    requires Initial(start) && Runs(start, evs) && x in After(start, evs).generated
    ensures exists i: nat :: DrawnAt(start, evs, i, x)
    decreases |evs|
  {
    if evs != [] {
      var n := |evs| - 1;
      LastEvent(start, evs);
      if x in After(start, evs[..n]).generated {
        GeneratedWasDrawn(start, evs[..n], x);
        var i: nat :| DrawnAt(start, evs[..n], i, x);
        assert evs[..n][..i] == evs[..i];
        assert DrawnAt(start, evs, i, x);
      } else {
        NewlyGenerated(After(start, evs[..n]), evs[n], x);
        assert DrawnAt(start, evs, n, x);
      }
    }
  }

  lemma StoredWasGenerated(net: Net, u: NodeId, o: NodeId)
    requires Reachable(net) && u in net.sites && o in net.sites[u].node.lsas
    ensures var x := net.sites[u].node.lsas[o];
      x in net.generated && x.origin == o && o in net.sites && 1 <= x.sequence <= net.sites[o].node.lsaSequence
  {
    ReachableInv(net);
  }

  /** In every run, each entry any node stores was drawn by the origin it is filed under in some
      event of the run; in the state of that event it listed exactly the origin's transport
      sessions, and all three messages of the handshake behind each of them had been exchanged. */
  lemma BackedAdjacency(start: Net, evs: seq<Event>, u: NodeId, o: NodeId)
    requires Initial(start) && Runs(start, evs) && u in After(start, evs).sites
    requires o in After(start, evs).sites[u].node.lsas
    ensures var net := After(start, evs);
      var x := net.sites[u].node.lsas[o];
      && x.origin == o && o in net.sites && 1 <= x.sequence <= net.sites[o].node.lsaSequence
      && exists i: nat :: DrawnAt(start, evs, i, x)
  {
    StoredWasGenerated(After(start, evs), u, o);
    GeneratedWasDrawn(start, evs, After(start, evs).sites[u].node.lsas[o]);
  }

  /** What receiving a LinkState packet does in every reachable state: it is stored, and sent on to
      every established peer but those recorded under the packet's source address, if it is of
      another origin and the first of it, or its number is higher, or its number is the same and its
      timestamp later; otherwise nothing is stored and nothing sent. */
  lemma ReceptionIsLexicographic(net: Net, q: LsaPacket, first: bool)
    requires Reachable(net) && Enabled(net, LsaIn(q, first))
    ensures var net' := Next(net, LsaIn(q, first));
      var n, x, o := net.sites[q.to].node, q.lsa, q.lsa.origin;
      var taken := o != q.to
        && (o !in n.lsas || x.sequence > n.lsas[o].sequence
            || (x.sequence == n.lsas[o].sequence && x.timestamp > n.lsas[o].timestamp));
      && q.to in net'.sites
      && net'.sites[q.to].node.lsas == (if taken then n.lsas[o := x] else n.lsas)
      && (forall r :: r in net'.lsaLog <==>
            || r in net.lsaLog
            || (taken && r.from == q.to && r.lsa == x && r.to in n.peers && Established(n, r.to)
                && n.peers[r.to].addr != UnicastSource(net.sites[q.from].place)))
  {
    assert Grounded(net) by {
      ReachableInv(net);
    }
    GroundedSite(net, q.to);
    ReceiveHasEffect(net, q, first);
  }

  /** A sequence number identifies its advertisement, payload included, so what nodes receive
      never has two different newest advertisements and merging it is order independent. */
  lemma ReceivedMergesOrderIndependently(net: Net, xs: seq<Lsa>)
    requires Reachable(net) && forall x <- xs :: exists q <- net.lsaLog :: q.lsa == x
    ensures OrderIndependent(xs)
  {
    ReachableInv(net);
    forall x, y | Newest(x, xs) && Newest(y, xs) && x.origin == y.origin ensures x == y {
      assert !Newer(x, y) && !Newer(y, x);
      assert x in net.generated && y in net.generated;
    }
    OrderIndependentIffNewestUnique(xs);
  }
}
