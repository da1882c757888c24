/** What the handshakes of N nodes keep true in every run: agreement, the shape of the stored
    states, the number of messages sent, and completion under exactly-once delivery. */
module MeshHandshake {
  import opened Common
  import opened Mesh
  import opened Noise
  import opened NodeStates
  import opened Session

  ghost predicate KnownNodes(net: Net) {
    && (forall u <- net.sites :: net.sites[u].node.id == u && u !in net.sites[u].node.sessions)
    && (forall p <- net.log :: p.from in net.sites && p.to in net.sites && p.from != p.to)
  }

  ghost predicate PairAt(net: Net, h: NodeId, l: NodeId)
    requires h in net.sites && l in net.sites
  {
    PairInv(View(net, h, l), View(net, l, h), net.log, h, l, net.next)
  }

  ghost predicate HandshakeInv(net: Net) {
    && KnownNodes(net)
    && forall h, l | h in net.sites && l in net.sites && h > l :: PairAt(net, h, l)
  }

  // ----- what the three events that touch sessions do to one pair

  /** The only session a Hello can touch is the receiver's with the sender, and only if there
      was none. */
  ghost predicate HelloEffect(net: Net, net': Net, to: NodeId, from: NodeId)
    requires to in net.sites
  {
    && net'.sites.Keys == net.sites.Keys && net'.next == net.next + 1
    && (forall u <- net.sites, v | (u, v) != (to, from) :: View(net', u, v) == View(net, u, v))
    && (forall u <- net.sites ::
        net'.sites[u].node.id == net.sites[u].node.id && net'.sites[u].removals == net.sites[u].removals)
    && if to == from || View(net, to, from).Some?
       then net'.log == net.log && net'.flight == net.flight && View(net', to, from) == View(net, to, from)
       else var o := OnHello(to, from, net.next);
         && View(net', to, from) == o.session
         && net'.log == Logged(net.log, to, from, o.reply)
         && net'.flight == Flown(net.flight, to, from, o.reply)
  }

  lemma HelloSessions(n: NodeState, from: NodeId, addr: Addr, port: nat, now: Instant, next: Ephemeral)
    ensures var (n', reply) := ReceiveHello(n, from, addr, port, now, next);
      && n'.id == n.id
      && (forall v | v != from :: Lookup(n'.sessions, v) == Lookup(n.sessions, v))
      && if from == n.id || from in n.sessions then n'.sessions == n.sessions && reply == None
         else (Lookup(n'.sessions, from), reply) == (OnHello(n.id, from, next).session, OnHello(n.id, from, next).reply)
  {
  }

  lemma HelloHasEffect(net: Net, to: NodeId, from: NodeId)
    requires to in net.sites && from in net.sites && net.sites[to].node.id == to
    ensures HelloEffect(net, NextHello(net, to, from), to, from)
  {
    var net' := NextHello(net, to, from);
    var place := net.sites[from].place;
    HelloSessions(net.sites[to].node, from, HelloSource(place), place.port, net.now, net.next);
    OnlyViewsOf(net, net', to, from);
  }

  /** If one site changed, and in its sessions only the one with v, then so did the views. */
  lemma OnlyViewsOf(net: Net, net': Net, u: NodeId, v: NodeId)
    requires u in net.sites && u in net'.sites && net'.sites == net.sites[u := net'.sites[u]]
    requires forall w | w != v :: View(net', u, w) == View(net, u, w)
    requires net'.sites[u].node.id == net.sites[u].node.id && net'.sites[u].removals == net.sites[u].removals
    ensures net'.sites.Keys == net.sites.Keys
    ensures forall a <- net.sites, b | (a, b) != (u, v) :: View(net', a, b) == View(net, a, b)
    ensures forall a <- net.sites ::
      net'.sites[a].node.id == net.sites[a].node.id && net'.sites[a].removals == net.sites[a].removals
  {
    assert net'.sites.Keys == net.sites.Keys + {u};
  }

  /** The only session a handshake packet can touch is the receiver's with the sender. */
  ghost predicate HandshakeEffect(net: Net, net': Net, p: Packet, first: bool)
    requires p.to in net.sites
  {
    var o := OnHandshake(p.to, p.from, View(net, p.to, p.from), p.msg, net.next);
    && net'.sites.Keys == net.sites.Keys && net'.next == net.next + 1
    && (forall u <- net.sites, v | (u, v) != (p.to, p.from) :: View(net', u, v) == View(net, u, v))
    && (forall u <- net.sites ::
        net'.sites[u].node.id == net.sites[u].node.id && net'.sites[u].removals == net.sites[u].removals)
    && View(net', p.to, p.from) == o.session
    && net'.log == Logged(net.log, p.to, p.from, o.reply)
    && net'.flight == Flown(if first then net.flight - multiset{p} else net.flight, p.to, p.from, o.reply)
  }

  lemma HandshakeHasEffect(net: Net, p: Packet, first: bool)
    requires p.to in net.sites && p.from != p.to && net.sites[p.to].node.id == p.to
    ensures HandshakeEffect(net, NextHandshake(net, p, first), p, first)
  {
    OnlyViewsOf(net, NextHandshake(net, p, first), p.to, p.from);
  }

  ghost predicate EvictEffect(net: Net, net': Net, u: NodeId, stale: set<NodeId>)
    requires u in net.sites
  {
    && net'.sites.Keys == net.sites.Keys && net'.next == net.next && net'.log == net.log && net'.flight == net.flight
    && (forall a <- net.sites, b :: View(net', a, b) == if a == u && b in stale then None else View(net, a, b))
    && (forall a <- net.sites :: net'.sites[a].node.id == net.sites[a].node.id)
    && (forall a <- net.sites :: net'.sites[a].removals
          == if a == u then net.sites[a].removals + multiset(stale) else net.sites[a].removals)
  }

  lemma EvictHasEffect(net: Net, u: NodeId)
    requires u in net.sites && net.sites[u].scan.Some?
    ensures EvictEffect(net, NextEvict(net, u), u, net.sites[u].scan.value.stale)
  {
    var net' := NextEvict(net, u);
    OneSite(net, u, net'.sites[u], net');
  }

  /** Every event is one of those three or leaves all sessions alone (losing a packet aside). */
  ghost predicate StepEffect(net: Net, ev: Event, net': Net)
    requires Enabled(net, ev)
  {
    match ev
    case HelloIn(to, from) => HelloEffect(net, net', to, from)
    case HandshakeIn(p, first) => HandshakeEffect(net, net', p, first)
    case EvictAt(u) => EvictEffect(net, net', u, net.sites[u].scan.value.stale)
    case LoseHandshake(p) => SessionsKept(net, net'.(flight := net.flight)) && net'.flight == net.flight - multiset{p}
    case _ => SessionsKept(net, net')
  }

  lemma StepHasEffect(net: Net, ev: Event)
    requires Enabled(net, ev) && KnownNodes(net)
    ensures StepEffect(net, ev, Next(net, ev))
  {
    match ev {
      case HelloIn(to, from) => HelloHasEffect(net, to, from);
      case HandshakeIn(p, first) => HandshakeHasEffect(net, p, first);
      case EvictAt(u) => EvictHasEffect(net, u);
      case GenerateAt(u) => GenerateFrame(net, u);
      case PublishAt(u, lsa) => PublishFrame(net, u, lsa);
      case LsaIn(q, first) => LsaFrame(net, q, first);
      case CleanAt(u) => CleanFrame(net, u);
      case ScanAt(u) => ScanFrame(net, u);
      case PingAt(u) => PingFrame(net, u);
      case PongIn(to, from, sequence) => PongFrame(net, to, from, sequence);
      case CountAt(u) => CountFrame(net, u);
      case Tick(_) =>
      case LoseHandshake(_) =>
      case LoseLsa(_) =>
    }
  }

  // ----- the invariant

  lemma PairHello(net: Net, net': Net, to: NodeId, from: NodeId, h: NodeId, l: NodeId)
    requires to in net.sites && HelloEffect(net, net', to, from)
    requires h in net.sites && l in net.sites && PairAt(net, h, l)
    ensures PairAt(net', h, l)
  {
    var vh, vl := View(net, h, l), View(net, l, h);
    if to == from || View(net, to, from).Some? {
      OtherPacketKeepsPair(vh, vl, net.log, h, l, net.next, to, from, None, net.next + 1);
    } else if (to, from) == (h, l) {
      HelloKeepsPair(vl, net.log, h, l, net.next);
    } else {
      OtherPacketKeepsPair(vh, vl, net.log, h, l, net.next, to, from, OnHello(to, from, net.next).reply, net.next + 1);
      ForgettingKeepsPair(vh, vl, View(net', h, l), View(net', l, h), net'.log, h, l, net'.next);
    }
  }

  lemma PairHandshake(net: Net, net': Net, p: Packet, first: bool, h: NodeId, l: NodeId)
    requires p.to in net.sites && p in net.log && HandshakeEffect(net, net', p, first)
    requires h in net.sites && l in net.sites && PairAt(net, h, l)
    ensures PairAt(net', h, l)
  {
    var vh, vl := View(net, h, l), View(net, l, h);
    if (p.to, p.from) == (h, l) {
      InitiatorStepKeepsPair(vh, vl, net.log, h, l, p.msg, net.next);
    } else if (p.to, p.from) == (l, h) {
      ResponderStepKeepsPair(vh, vl, net.log, h, l, p.msg, net.next);
    } else {
      var o := OnHandshake(p.to, p.from, View(net, p.to, p.from), p.msg, net.next);
      OtherPacketKeepsPair(vh, vl, net.log, h, l, net.next, p.to, p.from, o.reply, net.next + 1);
    }
  }

  lemma PairEvict(net: Net, net': Net, u: NodeId, stale: set<NodeId>, h: NodeId, l: NodeId)
    requires u in net.sites && EvictEffect(net, net', u, stale)
    requires h in net.sites && l in net.sites && PairAt(net, h, l)
    ensures PairAt(net', h, l)
  {
    ForgettingKeepsPair(View(net, h, l), View(net, l, h), View(net', h, l), View(net', l, h), net.log, h, l, net.next);
  }

  /** One step of one pair. */
  lemma PairStep(net: Net, ev: Event, net': Net, h: NodeId, l: NodeId)
    requires Enabled(net, ev) && StepEffect(net, ev, net')
    requires h in net.sites && l in net.sites && PairAt(net, h, l)
    ensures h in net'.sites && l in net'.sites && PairAt(net', h, l)
  {
    match ev {
      case HelloIn(to, from) => PairHello(net, net', to, from, h, l);
      case HandshakeIn(p, first) => PairHandshake(net, net', p, first, h, l);
      case EvictAt(u) => PairEvict(net, net', u, net.sites[u].scan.value.stale, h, l);
      case _ => assert SameSession(net.sites[h], net'.sites[h]) && SameSession(net.sites[l], net'.sites[l]);
    }
  }

  lemma KnownNodesStep(net: Net, ev: Event, net': Net)
    requires Enabled(net, ev) && KnownNodes(net) && StepEffect(net, ev, net')
    ensures KnownNodes(net') && net'.sites.Keys == net.sites.Keys
  {
    forall u | u in net.sites ensures net'.sites[u].node.id == u && u !in net'.sites[u].node.sessions {
      KnowsItself(net, ev, net', u);
    }
    LogBetweenNodes(net, ev, net');
  }

  lemma KnowsItself(net: Net, ev: Event, net': Net, u: NodeId)
    requires Enabled(net, ev) && KnownNodes(net) && StepEffect(net, ev, net') && u in net.sites
    ensures u in net'.sites && net'.sites[u].node.id == u && u !in net'.sites[u].node.sessions
  {
    assert View(net, u, u) == None;
    assert View(net', u, u) == None;
  }

  lemma LogBetweenNodes(net: Net, ev: Event, net': Net)
    requires Enabled(net, ev) && KnownNodes(net) && StepEffect(net, ev, net')
    ensures net'.sites.Keys == net.sites.Keys
    ensures forall p <- net'.log :: p.from in net'.sites && p.to in net'.sites && p.from != p.to
  {
  }

  lemma HandshakeInvStep(net: Net, ev: Event)
    requires Enabled(net, ev) && HandshakeInv(net)
    ensures HandshakeInv(Next(net, ev)) && StepEffect(net, ev, Next(net, ev))
  {
    var net' := Next(net, ev);
    StepHasEffect(net, ev);
    HandshakeInvKept(net, ev, net');
  }

  lemma HandshakeInvKept(net: Net, ev: Event, net': Net)
    requires Enabled(net, ev) && HandshakeInv(net) && StepEffect(net, ev, net')
    ensures HandshakeInv(net')
  {
    KnownNodesStep(net, ev, net');
    forall h, l | h in net.sites && l in net.sites && h > l ensures PairAt(net', h, l) {
      PairStep(net, ev, net', h, l);
    }
  }

  lemma {:induction false} HandshakeInvRun(net: Net, evs: seq<Event>)
    requires Runs(net, evs) && HandshakeInv(net)
    ensures HandshakeInv(After(net, evs))
    decreases |evs|
  {
    if evs != [] {
      HandshakeInvStep(net, evs[0]);
      HandshakeInvRun(Next(net, evs[0]), evs[1..]);
    }
  }

  lemma ReachableHandshakeInv(net: Net)
    requires Reachable(net)
    ensures HandshakeInv(net)
  {
    var start, evs :| Initial(start) && Runs(start, evs) && After(start, evs) == net;
    HandshakeInvRun(start, evs);
  }

  lemma ReachableStep(net: Net, ev: Event)
    requires Reachable(net) && Enabled(net, ev)
    ensures Reachable(Next(net, ev))
  {
    var start, evs :| Initial(start) && Runs(start, evs) && After(start, evs) == net;
    RunExtends(start, evs, ev);
  }

  lemma {:induction false} ReachableRun(net: Net, evs: seq<Event>)
    requires Reachable(net) && Runs(net, evs)
    ensures Reachable(After(net, evs))
    decreases |evs|
  {
    if evs != [] {
      ReachableStep(net, evs[0]);
      ReachableRun(Next(net, evs[0]), evs[1..]);
    }
  }

  lemma {:induction false} RunExtends(net: Net, evs: seq<Event>, ev: Event)
    requires Runs(net, evs) && Enabled(After(net, evs), ev)
    ensures Runs(net, evs + [ev]) && After(net, evs + [ev]) == Next(After(net, evs), ev)
    decreases |evs|
  {
    if evs == [] {
      assert evs + [ev] == [ev] && [ev][1..] == [];
    } else {
      RunExtends(Next(net, evs[0]), evs[1..], ev);
      assert (evs + [ev])[1..] == evs[1..] + [ev];
    }
  }

  // ----- agreement and state shapes

  /** In every reachable state, whatever was lost, duplicated, reordered, evicted and
      negotiated anew: if two nodes both hold a transport session for each other, it is the
      same one, and all three of its messages were really exchanged between them. */
  lemma HandshakeAgreement(net: Net, a: NodeId, b: NodeId, ta: Transcript, tb: Transcript)
    requires Reachable(net) && a in net.sites && b in net.sites
    requires View(net, a, b) == Some(Transport(ta)) && View(net, b, a) == Some(Transport(tb))
    ensures ta == tb && ta.Pair? && Exchanged(net.log, if a > b then a else b, if a > b then b else a, ta.e, ta.r)
  {
    ReachableHandshakeInv(net);
    assert a != b;
    var h, l := if a > b then a else b, if a > b then b else a;
    assert PairAt(net, h, l);
    EstablishedAgree(View(net, h, l).value.transcript, View(net, l, h).value.transcript, net.log, h, l, net.next);
  }

  /** What a Hello does where there is no session: the smaller id waits for an initiator, the greater
      one sends message 1 with a new ephemeral and waits for message 2. */
  lemma HelloReaction(net: Net, u: NodeId, v: NodeId)
    requires Reachable(net) && u in net.sites && v in net.sites && u != v && View(net, u, v) == None
    ensures var net' := Next(net, HelloIn(u, v));
      && u in net'.sites
      && if u < v
         then View(net', u, v) == Some(ExpectingInitiator) && net'.log == net.log
         else View(net', u, v) == Some(Handshaking(HandshakeState(true, 1, One(net.next))))
              && net'.log == net.log + [Packet(u, v, Message(1, One(net.next)))]
  {
    assert KnownNodes(net) by {
      ReachableHandshakeInv(net);
    }
    StepHasEffect(net, HelloIn(u, v));
  }

  /** The session and the answer, if any, of a node whose session with the sender was `before` when
      the message came. */
  ghost predicate Reacts(u: NodeId, v: NodeId, before: Option<NoiseState>, m: Message, next: Ephemeral,
                         after: Option<NoiseState>, reply: Option<Message>)
  {
    if before == None && u > v then
      after == None && reply == None
    else if before == None || before == Some(ExpectingInitiator) then
      if m.index == 1 && m.transcript.One?
      then var t := Pair(m.transcript.e, next);
        after == Some(Handshaking(HandshakeState(false, 2, t))) && reply == Some(Message(2, t))
      else after == Some(Transitioning) && reply == None
    else if before.value.Handshaking? && u > v then
      var t := before.value.state.transcript;
      if m.index == 2 && t.One? && m.transcript.Pair? && m.transcript.e == t.e
      then after == Some(Transport(m.transcript)) && reply == Some(Message(3, m.transcript))
      else after == Some(Transitioning) && reply == None
    else if before.value.Handshaking? then
      if m == Message(3, before.value.state.transcript)
      then after == Some(Transport(m.transcript)) && reply == None
      else after == Some(Transitioning) && reply == None
    else
      after == before && reply == None
  }

  lemma DriverReacts(u: NodeId, v: NodeId, before: Option<NoiseState>, m: Message, next: Ephemeral)
    requires u != v && if u > v then InitiatorShape(before) else ResponderShape(before)
    ensures var o := OnHandshake(u, v, before, m, next);
      Reacts(u, v, before, m, next, o.session, o.reply)
  {
  }

  /** What a handshake message does in every reachable state: an unsolicited one leaves nothing at the
      greater id; where an initiator is awaited message 1 is answered with message 2; message 2 for
      the own ephemeral is answered with message 3 and ends the handshake; message 3 for the own pair
      ends it; anything else leaves `Transitioning`; a finished or failed session ignores it. */
  lemma HandshakeReaction(net: Net, p: Packet, first: bool) returns (reply: Option<Message>)
    requires Reachable(net) && Enabled(net, HandshakeIn(p, first))
    ensures p.to in Next(net, HandshakeIn(p, first)).sites
    ensures var net' := Next(net, HandshakeIn(p, first));
      && Reacts(p.to, p.from, View(net, p.to, p.from), p.msg, net.next, View(net', p.to, p.from), reply)
      && net'.log == if reply == None then net.log else net.log + [Packet(p.to, p.from, reply.value)]
  {
    var u, v := p.to, p.from;
    ReachableHandshakeInv(net);
    assert PairAt(net, if u > v then u else v, if u > v then v else u);
    DriverReacts(u, v, View(net, u, v), p.msg, net.next);
    StepHasEffect(net, HandshakeIn(p, first));
    reply := OnHandshake(u, v, View(net, u, v), p.msg, net.next).reply;
  }

  /** Every stored handshake state waits to read, is the initiator after one message at the
      greater id or the responder after two at the smaller one; only the smaller id waits for
      an initiator; and a message that reads always completes the handshake, so the branch that
      keeps `Handshaking` is never taken. */
  lemma StoredStatesHaveShape(net: Net, u: NodeId, v: NodeId, m: Message)
    requires Reachable(net) && u in net.sites && v in net.sites && u != v
    ensures if u > v then InitiatorShape(View(net, u, v)) else ResponderShape(View(net, u, v))
    ensures View(net, u, v) == Some(ExpectingInitiator) ==> u < v
    ensures View(net, u, v).Some? && View(net, u, v).value.Handshaking? ==>
      var s := View(net, u, v).value.state;
      var o := OnHandshake(u, v, View(net, u, v), m, net.next);
      && s.MyTurnToRead() && s.initiator == (u > v) && s.turn == (if u > v then 1 else 2)
      && !(o.session.Some? && o.session.value.Handshaking?)
      && (ReadMessage(s, m).Ok? <==> o.completed)
      && (o.completed <==> o.session == Some(Transport(m.transcript)))
  {
    ReachableHandshakeInv(net);
    assert PairAt(net, if u > v then u else v, if u > v then v else u);
    if View(net, u, v).Some? && View(net, u, v).value.Handshaking? {
      ReadableMessageCompletes(u, v, View(net, u, v).value, m, net.next);
    }
  }

  /** A transport session is given up, and the leftover of a failed handshake forgotten, only
      when its own side evicts the peer. */
  lemma TransportLeftOnlyByRemoval(net: Net, ev: Event, u: NodeId, v: NodeId)
    requires Reachable(net) && Enabled(net, ev) && u in net.sites
    requires View(net, u, v).Some? && (View(net, u, v).value.Transport? || View(net, u, v).value.Transitioning?)
    ensures u in Next(net, ev).sites
    ensures || View(Next(net, ev), u, v) == View(net, u, v)
            || (ev == EvictAt(u) && v in net.sites[u].scan.value.stale && View(Next(net, ev), u, v) == None)
  {
    assert KnownNodes(net) by {
      ReachableHandshakeInv(net);
    }
    StepHasEffect(net, ev);
    LeftOnlyByRemoval(net, ev, Next(net, ev), u, v);
  }

  /** Only the own eviction takes a session away altogether. */
  lemma SessionLeftOnlyByRemoval(net: Net, ev: Event, net': Net, u: NodeId, v: NodeId)
    requires Enabled(net, ev) && StepEffect(net, ev, net') && u in net.sites && View(net, u, v).Some?
    requires ev == EvictAt(u) ==> v !in net.sites[u].scan.value.stale
    ensures u in net'.sites && View(net', u, v).Some?
  {
    if !ev.HelloIn? && !ev.HandshakeIn? && !ev.EvictAt? {
      assert SameSession(net.sites[u], net'.sites[u]);
    }
  }

  lemma LeftOnlyByRemoval(net: Net, ev: Event, net': Net, u: NodeId, v: NodeId)
    requires Enabled(net, ev) && StepEffect(net, ev, net') && u in net.sites
    requires View(net, u, v).Some? && (View(net, u, v).value.Transport? || View(net, u, v).value.Transitioning?)
    ensures u in net'.sites
    ensures || View(net', u, v) == View(net, u, v)
            || (ev == EvictAt(u) && v in net.sites[u].scan.value.stale && View(net', u, v) == None)
  {
    if !ev.HelloIn? && !ev.HandshakeIn? && !ev.EvictAt? {
      assert SameSession(net.sites[u], net'.sites[u]);
    }
  }

  /** Exactly-once delivery is needed: a second copy of the first message, arriving while the
      responder waits for the third, is enough to leave it stuck in `Transitioning`. */
  lemma DuplicateFirstMessageWedges(net: Net, h: NodeId, l: NodeId, e: Ephemeral, r: Ephemeral)
    requires Reachable(net) && h in net.sites && l in net.sites && h > l
    requires View(net, l, h) == Some(Responding(e, r))
    ensures var ev := HandshakeIn(Packet(h, l, Message(1, One(e))), false);
      Enabled(net, ev) && View(Next(net, ev), l, h) == Some(Transitioning)
  {
    ReachableHandshakeInv(net);
    assert PairAt(net, h, l);
    assert Sent2(net.log, h, l, e, r) && Sent1(net.log, h, l, e);
    StepHasEffect(net, HandshakeIn(Packet(h, l, Message(1, One(e))), false));
  }

  /** No executed eviction of u takes v. */
  ghost predicate NeverEvicts(net: Net, evs: seq<Event>, u: NodeId, v: NodeId)
    decreases |evs|
  {
    evs == []
    || (Enabled(net, evs[0])
        && (evs[0] == EvictAt(u) ==> v !in net.sites[u].scan.value.stale)
        && NeverEvicts(Next(net, evs[0]), evs[1..], u, v))
  }

  /** A wedged session stays wedged to the end of every run in which its own side does not evict the
      peer: no Hello, no handshake message and no amount of time brings it back. */
  lemma {:induction false} WedgedForGood(net: Net, evs: seq<Event>, u: NodeId, v: NodeId)
    requires Reachable(net) && Runs(net, evs) && NeverEvicts(net, evs, u, v)
    requires u in net.sites && View(net, u, v) == Some(Transitioning)
    ensures u in After(net, evs).sites && View(After(net, evs), u, v) == Some(Transitioning)
    decreases |evs|
  {
    if evs != [] {
      TransportLeftOnlyByRemoval(net, evs[0], u, v);
      ReachableStep(net, evs[0]);
      WedgedForGood(Next(net, evs[0]), evs[1..], u, v);
    }
  }

  // ----- how many messages are sent

  function PerSession(u: NodeId, v: NodeId): nat { if u > v then 2 else 1 }

  ghost predicate WithinBudget(net: Net, u: NodeId, v: NodeId)
    requires u in net.sites
  {
    SentCount(net.log, u, v) + Budget(u, v, View(net, u, v)) <= PerSession(u, v) * (1 + net.sites[u].removals[v])
  }

  lemma BudgetStep(net: Net, ev: Event, net': Net, u: NodeId, v: NodeId)
    requires Enabled(net, ev) && HandshakeInv(net) && StepEffect(net, ev, net')
    requires u in net.sites && v in net.sites && u != v && WithinBudget(net, u, v)
    ensures u in net'.sites && WithinBudget(net', u, v)
  {
    assert PairAt(net, if u > v then u else v, if u > v then v else u);
    match ev {
      case HelloIn(to, from) =>
        HelloBudget(net, net', to, from, u, v);
      case HandshakeIn(p, first) =>
        HandshakeBudget(net, net', p, first, u, v);
      case EvictAt(a) =>
        EvictBudget(net, net', a, net.sites[a].scan.value.stale, u, v);
      case _ =>
        assert SameSession(net.sites[u], net'.sites[u]);
    }
  }

  lemma HelloBudget(net: Net, net': Net, to: NodeId, from: NodeId, u: NodeId, v: NodeId)
    requires to in net.sites && from in net.sites && HelloEffect(net, net', to, from)
    requires u in net.sites && u != v && WithinBudget(net, u, v)
    ensures WithinBudget(net', u, v)
  {
    if to != from && View(net, to, from).None? {
      var o := OnHello(to, from, net.next);
      LoggedCount(net.log, to, from, o.reply, u, v);
      HelloUsesBudget(to, from, net.next);
    }
  }

  lemma HandshakeBudget(net: Net, net': Net, p: Packet, first: bool, u: NodeId, v: NodeId)
    requires p.to in net.sites && HandshakeEffect(net, net', p, first)
    requires u in net.sites && u != v && WithinBudget(net, u, v)
    requires if u > v then InitiatorShape(View(net, u, v)) else ResponderShape(View(net, u, v))
    ensures WithinBudget(net', u, v)
  {
    var o := OnHandshake(p.to, p.from, View(net, p.to, p.from), p.msg, net.next);
    LoggedCount(net.log, p.to, p.from, o.reply, u, v);
    if (p.to, p.from) == (u, v) {
      HandshakeUsesBudget(u, v, View(net, u, v), p.msg, net.next);
    }
  }

  lemma EvictBudget(net: Net, net': Net, a: NodeId, stale: set<NodeId>, u: NodeId, v: NodeId)
    requires a in net.sites && EvictEffect(net, net', a, stale)
    requires u in net.sites && WithinBudget(net, u, v)
    ensures WithinBudget(net', u, v)
  {
    var k, r, r' := PerSession(u, v), net.sites[u].removals[v], net'.sites[u].removals[v];
    if a == u && v in stale {
      assert r' == r + 1;
      assert k * (1 + r') == k * (1 + r) + k;
    } else {
      assert r' == r;
    }
  }

  lemma {:induction false} BudgetRun(net: Net, evs: seq<Event>, u: NodeId, v: NodeId)
    requires Runs(net, evs) && HandshakeInv(net)
    requires u in net.sites && v in net.sites && u != v && WithinBudget(net, u, v)
    ensures u in After(net, evs).sites && WithinBudget(After(net, evs), u, v)
    decreases |evs|
  {
    if evs != [] {
      HandshakeInvStep(net, evs[0]);
      KnownNodesStep(net, evs[0], Next(net, evs[0]));
      BudgetStep(net, evs[0], Next(net, evs[0]), u, v);
      BudgetRun(Next(net, evs[0]), evs[1..], u, v);
    }
  }

  /** However the network behaves, the greater id sends a peer at most two handshake messages
      and the smaller id at most one, once more for every time it evicted that peer. */
  lemma HandshakeMessageBound(start: Net, evs: seq<Event>, u: NodeId, v: NodeId)
    requires Initial(start) && Runs(start, evs)
    requires u in start.sites && v in start.sites && u != v
    ensures u in After(start, evs).sites
    ensures SentCount(After(start, evs).log, u, v)
         <= (if u > v then 2 else 1) * (1 + After(start, evs).sites[u].removals[v])
  {
    BudgetRun(start, evs, u, v);
  }

  // ----- completion under exactly-once delivery

  /** How far the handshake between two nodes has come. */
  datatype Phase =
    | Idle
    | Opened(e: Ephemeral)
    | Answered(e: Ephemeral, r: Ephemeral)
    | Closing(e: Ephemeral, r: Ephemeral)
    | Done(e: Ephemeral, r: Ephemeral)

  function Rank(ph: Phase): nat {
    match ph
    case Idle => 0
    case Opened(_) => 1
    case Answered(_, _) => 2
    case Closing(_, _) => 3
    case Done(_, _) => 4
  }

  predicate Between(p: Packet, h: NodeId, l: NodeId) {
    (p.from == h && p.to == l) || (p.from == l && p.to == h)
  }

  /** q is the only packet between the two nodes in flight. */
  ghost predicate OnlyFlying(flight: multiset<Packet>, h: NodeId, l: NodeId, q: Option<Packet>) {
    forall p: Packet | Between(p, h, l) :: flight[p] == if q == Some(p) then 1 else 0
  }

  /** The packet in flight between the two nodes. */
  function Flying(h: NodeId, l: NodeId, ph: Phase): Option<Packet> {
    match ph
    case Opened(e) => Some(Packet(h, l, Message(1, One(e))))
    case Answered(e, r) => Some(Packet(l, h, Message(2, Pair(e, r))))
    case Closing(e, r) => Some(Packet(h, l, Message(3, Pair(e, r))))
    case _ => None
  }

  ghost predicate InPhase(net: Net, h: NodeId, l: NodeId, ph: Phase)
    requires h in net.sites && l in net.sites
  {
    var vh, vl := View(net, h, l), View(net, l, h);
    var unanswered := vl == None || vl == Some(ExpectingInitiator);
    var hl, lh := SentCount(net.log, h, l), SentCount(net.log, l, h);
    && OnlyFlying(net.flight, h, l, Flying(h, l, ph))
    && match ph
       case Idle => vh == None && unanswered && (hl, lh) == (0, 0)
       case Opened(e) => vh == Some(Initiating(e)) && unanswered && (hl, lh) == (1, 0)
       case Answered(e, r) => vh == Some(Initiating(e)) && vl == Some(Responding(e, r)) && (hl, lh) == (1, 1)
       case Closing(e, r) => vh == Some(Transport(Pair(e, r))) && vl == Some(Responding(e, r)) && (hl, lh) == (2, 1)
       case Done(e, r) => vh == Some(Transport(Pair(e, r))) && vl == Some(Transport(Pair(e, r))) && (hl, lh) == (2, 1)
  }

  /** No packet between h and l is lost or delivered twice, and neither evicts the other. */
  predicate Reliable(net: Net, ev: Event, h: NodeId, l: NodeId)
    requires Enabled(net, ev)
  {
    && (ev.LoseHandshake? ==> !Between(ev.p, h, l))
    && (ev.HandshakeIn? && Between(ev.p, h, l) ==> ev.first)
    && (ev == EvictAt(h) ==> l !in net.sites[h].scan.value.stale)
    && (ev == EvictAt(l) ==> h !in net.sites[l].scan.value.stale)
  }

  /** A run reliable for the two nodes; the rest of the mesh may behave in any way. */
  ghost predicate ReliableRun(net: Net, evs: seq<Event>, h: NodeId, l: NodeId)
    decreases |evs|
  {
    evs == [] || (Enabled(net, evs[0]) && Reliable(net, evs[0], h, l) && ReliableRun(Next(net, evs[0]), evs[1..], h, l))
  }

  predicate Delivers(ev: Event, h: NodeId, l: NodeId) {
    ev.HandshakeIn? && Between(ev.p, h, l)
  }

  lemma PhaseHello(net: Net, net': Net, to: NodeId, from: NodeId, h: NodeId, l: NodeId, ph: Phase) returns (ph': Phase)
    requires to in net.sites && h in net.sites && l in net.sites && h > l
    requires HelloEffect(net, net', to, from) && InPhase(net, h, l, ph)
    ensures InPhase(net', h, l, ph')
    ensures Rank(ph') == if ph.Idle? && (to, from) == (h, l) then 1 else Rank(ph)
  {
    ph' := ph;
    if to != from && View(net, to, from).None? {
      var o := OnHello(to, from, net.next);
      LoggedCount(net.log, to, from, o.reply, h, l);
      LoggedCount(net.log, to, from, o.reply, l, h);
      if (to, from) == (h, l) {
        ph' := Opened(net.next);
      }
    }
  }

  /** Delivering the only packet between the two nodes leaves only the reply to it. */
  lemma FlyingReply(flight: multiset<Packet>, p: Packet, h: NodeId, l: NodeId, reply: Option<Message>)
    requires Between(p, h, l) && OnlyFlying(flight, h, l, Some(p))
    ensures OnlyFlying(Flown(flight - multiset{p}, p.to, p.from, reply), h, l,
                       if reply.None? then None else Some(Packet(p.to, p.from, reply.value)))
  {
  }

  lemma FlyingElsewhere(flight: multiset<Packet>, p: Packet, first: bool, h: NodeId, l: NodeId,
                        reply: Option<Message>, q: Option<Packet>)
    requires !Between(p, h, l) && OnlyFlying(flight, h, l, q)
    ensures OnlyFlying(Flown(if first then flight - multiset{p} else flight, p.to, p.from, reply), h, l, q)
  {
  }

  lemma PhaseElsewhere(net: Net, net': Net, p: Packet, first: bool, h: NodeId, l: NodeId, ph: Phase)
    requires p.to in net.sites && h in net.sites && l in net.sites && h > l && !Between(p, h, l)
    requires HandshakeEffect(net, net', p, first) && InPhase(net, h, l, ph)
    ensures InPhase(net', h, l, ph)
  {
    var o := OnHandshake(p.to, p.from, View(net, p.to, p.from), p.msg, net.next);
    LoggedCount(net.log, p.to, p.from, o.reply, h, l);
    LoggedCount(net.log, p.to, p.from, o.reply, l, h);
    FlyingElsewhere(net.flight, p, first, h, l, o.reply, Flying(h, l, ph));
  }

  lemma FirstDelivered(net: Net, net': Net, p: Packet, h: NodeId, l: NodeId, e: Ephemeral)
    requires p.to in net.sites && h in net.sites && l in net.sites && h > l
    requires p == Flying(h, l, Opened(e)).value && HandshakeEffect(net, net', p, true) && InPhase(net, h, l, Opened(e))
    ensures InPhase(net', h, l, Answered(e, net.next))
  {
    var o := OnHandshake(p.to, p.from, View(net, p.to, p.from), p.msg, net.next);
    assert o == Outcome(Some(Responding(e, net.next)), Some(Message(2, Pair(e, net.next))), false);
    LoggedCount(net.log, p.to, p.from, o.reply, h, l);
    LoggedCount(net.log, p.to, p.from, o.reply, l, h);
    FlyingReply(net.flight, p, h, l, o.reply);
  }

  lemma SecondDelivered(net: Net, net': Net, p: Packet, h: NodeId, l: NodeId, e: Ephemeral, r: Ephemeral)
    requires p.to in net.sites && h in net.sites && l in net.sites && h > l
    requires p == Flying(h, l, Answered(e, r)).value && HandshakeEffect(net, net', p, true)
    requires InPhase(net, h, l, Answered(e, r))
    ensures InPhase(net', h, l, Closing(e, r))
  {
    var o := OnHandshake(p.to, p.from, View(net, p.to, p.from), p.msg, net.next);
    assert o == Outcome(Some(Transport(Pair(e, r))), Some(Message(3, Pair(e, r))), true);
    LoggedCount(net.log, p.to, p.from, o.reply, h, l);
    LoggedCount(net.log, p.to, p.from, o.reply, l, h);
    FlyingReply(net.flight, p, h, l, o.reply);
  }

  lemma ThirdDelivered(net: Net, net': Net, p: Packet, h: NodeId, l: NodeId, e: Ephemeral, r: Ephemeral)
    requires p.to in net.sites && h in net.sites && l in net.sites && h > l
    requires p == Flying(h, l, Closing(e, r)).value && HandshakeEffect(net, net', p, true)
    requires InPhase(net, h, l, Closing(e, r))
    ensures InPhase(net', h, l, Done(e, r))
  {
    var o := OnHandshake(p.to, p.from, View(net, p.to, p.from), p.msg, net.next);
    assert o == Outcome(Some(Transport(Pair(e, r))), None, true);
    LoggedCount(net.log, p.to, p.from, o.reply, h, l);
    LoggedCount(net.log, p.to, p.from, o.reply, l, h);
    FlyingReply(net.flight, p, h, l, o.reply);
  }

  lemma PhaseHandshake(net: Net, net': Net, p: Packet, first: bool, h: NodeId, l: NodeId, ph: Phase)
    returns (ph': Phase)
    requires p.to in net.sites && (first ==> p in net.flight) && h in net.sites && l in net.sites && h > l
    requires HandshakeEffect(net, net', p, first) && InPhase(net, h, l, ph) && (Between(p, h, l) ==> first)
    ensures InPhase(net', h, l, ph')
    ensures Rank(ph') == if Between(p, h, l) then Rank(ph) + 1 else Rank(ph)
    ensures Between(p, h, l) ==> !ph.Idle?
  {
    ph' := ph;
    if Between(p, h, l) {
      assert OnlyFlying(net.flight, h, l, Flying(h, l, ph));
      assert net.flight[p] > 0;
      match ph {
        case Opened(e) => FirstDelivered(net, net', p, h, l, e); ph' := Answered(e, net.next);
        case Answered(e, r) => SecondDelivered(net, net', p, h, l, e, r); ph' := Closing(e, r);
        case Closing(e, r) => ThirdDelivered(net, net', p, h, l, e, r); ph' := Done(e, r);
      }
    } else {
      PhaseElsewhere(net, net', p, first, h, l, ph);
    }
  }

  /** An eviction that spares the two, or the loss of a packet between others. */
  lemma PhaseSpared(net: Net, ev: Event, net': Net, h: NodeId, l: NodeId, ph: Phase)
    requires Enabled(net, ev) && StepEffect(net, ev, net') && Reliable(net, ev, h, l)
    requires ev.EvictAt? || ev.LoseHandshake?
    requires h in net.sites && l in net.sites && h > l && InPhase(net, h, l, ph)
    ensures h in net'.sites && l in net'.sites && InPhase(net', h, l, ph)
  {
    if ev.LoseHandshake? {
      assert SameSession(net.sites[h], net'.sites[h]) && SameSession(net.sites[l], net'.sites[l]);
    }
  }

  lemma PhaseStep(net: Net, ev: Event, net': Net, h: NodeId, l: NodeId, ph: Phase) returns (ph': Phase)
    requires Enabled(net, ev) && StepEffect(net, ev, net') && Reliable(net, ev, h, l)
    requires h in net.sites && l in net.sites && h > l && InPhase(net, h, l, ph)
    ensures h in net'.sites && l in net'.sites && InPhase(net', h, l, ph')
    ensures Rank(ph') == if ph.Idle? then (if ev == HelloIn(h, l) then 1 else 0)
                         else Rank(ph) + if Delivers(ev, h, l) then 1 else 0
    ensures Delivers(ev, h, l) ==> !ph.Idle?
  {
    if ev.HelloIn? {
      ph' := PhaseHello(net, net', ev.to, ev.from, h, l, ph);
    } else if ev.HandshakeIn? {
      ph' := PhaseHandshake(net, net', ev.p, ev.first, h, l, ph);
    } else if ev.EvictAt? || ev.LoseHandshake? {
      PhaseSpared(net, ev, net', h, l, ph);
      ph' := ph;
    } else {
      assert SameSession(net.sites[h], net'.sites[h]) && SameSession(net.sites[l], net'.sites[l]);
      ph' := ph;
    }
  }

  /** Number of handshake deliveries between the two nodes. */
  function Deliveries(evs: seq<Event>, h: NodeId, l: NodeId): nat {
    if evs == [] then 0 else (if Delivers(evs[0], h, l) then 1 else 0) + Deliveries(evs[1..], h, l)
  }

  lemma {:induction false} PhaseRun(net: Net, evs: seq<Event>, h: NodeId, l: NodeId, ph: Phase) returns (ph': Phase)
    requires Runs(net, evs) && HandshakeInv(net) && ReliableRun(net, evs, h, l)
    requires h in net.sites && l in net.sites && h > l && InPhase(net, h, l, ph)
    ensures var net' := After(net, evs);
      h in net'.sites && l in net'.sites && InPhase(net', h, l, ph')
    ensures Rank(ph') == if ph.Idle? && HelloIn(h, l) !in evs then 0
                         else (if ph.Idle? then 1 else Rank(ph)) + Deliveries(evs, h, l)
    decreases |evs|
  {
    ph' := ph;
    if evs != [] {
      var net1 := Next(net, evs[0]);
      HandshakeInvStep(net, evs[0]);
      KnownNodesStep(net, evs[0], net1);
      var ph1 := PhaseStep(net, evs[0], net1, h, l, ph);
      ph' := PhaseRun(net1, evs[1..], h, l, ph1);
      assert HelloIn(h, l) in evs <==> evs[0] == HelloIn(h, l) || HelloIn(h, l) in evs[1..];
    }
  }

  /** Both nodes hold one and the same transport session. */
  ghost predicate SameTransport(net: Net, h: NodeId, l: NodeId)
    requires h in net.sites && l in net.sites
  {
    exists e, r :: View(net, h, l) == View(net, l, h) == Some(Transport(Pair(e, r)))
  }

  /** No handshake packet between the two is in flight. */
  ghost predicate NothingFlying(net: Net, h: NodeId, l: NodeId) {
    forall p: Packet | Between(p, h, l) :: p !in net.flight
  }

  lemma FlyingIsFlying(flight: multiset<Packet>, h: NodeId, l: NodeId, ph: Phase)
    requires OnlyFlying(flight, h, l, Flying(h, l, ph))
    ensures (forall p: Packet | Between(p, h, l) :: p !in flight) <==> ph.Idle? || ph.Done?
  {
    var q := Flying(h, l, ph);
    if q.Some? {
      assert Between(q.value, h, l) && flight[q.value] == 1;
    } else {
      forall p: Packet | Between(p, h, l) ensures p !in flight {
        assert flight[p] == 0;
      }
    }
  }

  /** n deliveries after the greater id heard the smaller one: n + 1 messages have been sent, three
      at most; after the third delivery, and only then, nothing is in flight between the two; and
      then, and only then, both hold the same transport session. */
  ghost predicate Stage(net: Net, h: NodeId, l: NodeId, n: nat)
    requires h in net.sites && l in net.sites
  {
    && n <= 3
    && SentCount(net.log, h, l) + SentCount(net.log, l, h) == (if n == 3 then 3 else n + 1)
    && (n == 3 <==> NothingFlying(net, h, l))
    && (n == 3 <==> SameTransport(net, h, l))
  }

  lemma PhaseIsStage(net: Net, h: NodeId, l: NodeId, ph: Phase)
    requires h in net.sites && l in net.sites && InPhase(net, h, l, ph) && !ph.Idle?
    ensures Stage(net, h, l, Rank(ph) - 1)
  {
    FlyingIsFlying(net.flight, h, l, ph);
    if ph.Done? {
      assert View(net, h, l) == View(net, l, h) == Some(Transport(Pair(ph.e, ph.r)));
    }
  }

  lemma StageReached(start: Net, evs: seq<Event>, h: NodeId, l: NodeId) returns (n: nat)
    requires Initial(start) && Runs(start, evs) && ReliableRun(start, evs, h, l)
    requires h in start.sites && l in start.sites && h > l && HelloIn(h, l) in evs
    ensures h in After(start, evs).sites && l in After(start, evs).sites
    ensures n == Deliveries(evs, h, l) && Stage(After(start, evs), h, l, n)
  {
    assert InPhase(start, h, l, Idle);
    var ph := PhaseRun(start, evs, h, l, Idle);
    PhaseIsStage(After(start, evs), h, l, ph);
    n := Rank(ph) - 1;
  }

  /** If the handshake packets between two nodes are delivered exactly once and neither evicts the
      other, then in any schedule of Hellos, handshake packets and everything else, once the greater
      id has heard the smaller one, each delivery between the two moves the handshake on by one:
      there are at most three, and as soon as nothing is in flight between them, both hold the same
      transport session after exactly three messages. */
  lemma HandshakeCompletion(start: Net, evs: seq<Event>, h: NodeId, l: NodeId)
    requires Initial(start) && Runs(start, evs) && ReliableRun(start, evs, h, l)
    requires h in start.sites && l in start.sites && h > l && HelloIn(h, l) in evs
    ensures h in After(start, evs).sites && l in After(start, evs).sites
    ensures Stage(After(start, evs), h, l, Deliveries(evs, h, l))
  {
    var n := StageReached(start, evs, h, l);
  }
}
