/** The handshake driver of one node towards one peer (`handle_hello` and `handle_handshake`
    in crates/node/src/node.rs), and what two such drivers keep true of each other. */
module Session {
  import opened Common
  import opened Noise

  /** `NoiseState` of crates/mesh/src/peer.rs. */
  datatype NoiseState =
    | ExpectingInitiator
    | Handshaking(state: HandshakeState)
    | Transport(transcript: Transcript)
    | Transitioning

  /** What a handler leaves in the session table and what it sends back. */
  datatype Outcome = Outcome(session: Option<NoiseState>, reply: Option<Message>, completed: bool)

  /** A Hello from a peer without a session: the greater id starts the handshake. */
  function OnHello(own: NodeId, peer: NodeId, next: Ephemeral): (o: Outcome) {
    if own < peer then Outcome(Some(ExpectingInitiator), None, false)
    else
      var (state, msg) := StartHandshake(next);
      Outcome(Some(Handshaking(state)), Some(msg), false)
  }

  /** A handshake message.  Every early error return leaves `Transitioning` behind, and an
      unexpected state is put back. */
  function OnHandshake(own: NodeId, peer: NodeId, session: Option<NoiseState>, m: Message,
                       next: Ephemeral)
    : (o: Outcome)
  {
    if session.None? && !(own < peer) then Outcome(None, None, false)
    else
      match (if session.None? then ExpectingInitiator else session.value)
      case ExpectingInitiator => OnFirstMessage(m, next)
      case Handshaking(state) => OnNextMessage(state, m, next)
      case other => Outcome(Some(other), None, false)
  }

  function OnFirstMessage(m: Message, next: Ephemeral): (o: Outcome) {
    match ReadMessage(BuildResponder(), m)
    case Err => Outcome(Some(Transitioning), None, false)
    case Ok(read) =>
      match WriteMessage(read, next)
      case Err => Outcome(Some(Transitioning), None, false)
      case Ok((state, reply)) => Outcome(Some(Handshaking(state)), Some(reply), false)
  }

  function OnNextMessage(state: HandshakeState, m: Message, next: Ephemeral): (o: Outcome) {
    match ReadMessage(state, m)
    case Err => Outcome(Some(Transitioning), None, false)
    case Ok(read) =>
      if read.Finished() then Outcome(Some(Transport(read.transcript)), None, true)
      else
        match WriteMessage(read, next)
        case Err => Outcome(Some(Transitioning), None, false)
        case Ok((written, reply)) =>
          if written.Finished() then Outcome(Some(Transport(written.transcript)), Some(reply), true)
          else Outcome(Some(Handshaking(written)), Some(reply), false)
  }

  // ----- the states that occur

  /** An initiator after message 1, waiting for message 2. */
  function Initiating(e: Ephemeral): NoiseState { Handshaking(HandshakeState(true, 1, One(e))) }

  /** A responder after message 2, waiting for message 3. */
  function Responding(e: Ephemeral, r: Ephemeral): NoiseState { Handshaking(HandshakeState(false, 2, Pair(e, r))) }

  /** The sessions the node with the greater id can hold. */
  predicate InitiatorShape(v: Option<NoiseState>) {
    || v.None?
    || v.value.Transitioning?
    || (v.value.Handshaking? && v.value.state.initiator && v.value.state.turn == 1 && v.value.state.transcript.One?)
    || (v.value.Transport? && v.value.transcript.Pair?)
  }

  /** The sessions the node with the smaller id can hold. */
  predicate ResponderShape(v: Option<NoiseState>) {
    || v.None?
    || v.value.Transitioning?
    || v.value.ExpectingInitiator?
    || (v.value.Handshaking? && !v.value.state.initiator && v.value.state.turn == 2 && v.value.state.transcript.Pair?)
    || (v.value.Transport? && v.value.transcript.Pair?)
  }

  // ----- the log of handshake packets

  datatype Packet = Packet(from: NodeId, to: NodeId, msg: Message)

  ghost predicate Sent1(log: seq<Packet>, h: NodeId, l: NodeId, e: Ephemeral) {
    Packet(h, l, Message(1, One(e))) in log
  }

  ghost predicate Sent2(log: seq<Packet>, h: NodeId, l: NodeId, e: Ephemeral, r: Ephemeral) {
    Packet(l, h, Message(2, Pair(e, r))) in log
  }

  ghost predicate Sent3(log: seq<Packet>, h: NodeId, l: NodeId, e: Ephemeral, r: Ephemeral) {
    Packet(h, l, Message(3, Pair(e, r))) in log
  }

  /** How many packets `from` has sent to `to`. */
  function SentCount(log: seq<Packet>, from: NodeId, to: NodeId): nat {
    if log == [] then 0
    else
      var last := log[|log| - 1];
      SentCount(log[..|log| - 1], from, to) + if last.from == from && last.to == to then 1 else 0
  }

  function Logged(log: seq<Packet>, from: NodeId, to: NodeId, reply: Option<Message>): seq<Packet> {
    if reply.None? then log else log + [Packet(from, to, reply.value)]
  }

  lemma LoggedCount(log: seq<Packet>, from: NodeId, to: NodeId, reply: Option<Message>, f: NodeId, t: NodeId)
    ensures SentCount(Logged(log, from, to, reply), f, t)
         == SentCount(log, f, t) + if reply.Some? && from == f && to == t then 1 else 0
  {
    if reply.Some? {
      assert (log + [Packet(from, to, reply.value)])[..|log|] == log;
    }
  }

  // ----- the pair invariant

  /** What every packet between the two nodes looks like and in which order they arose.
      `next` bounds all ephemerals drawn so far, so comparing two ephemerals compares the
      moments they were drawn. */
  ghost predicate LogInv(log: seq<Packet>, h: NodeId, l: NodeId, next: Ephemeral) {
    && (forall p <- log | p.from == h && p.to == l ::
          (p.msg.index == 1 && p.msg.transcript.One?) || (p.msg.index == 3 && p.msg.transcript.Pair?))
    && (forall p <- log | p.from == l && p.to == h :: p.msg.index == 2 && p.msg.transcript.Pair?)
    && (forall e: Ephemeral | Sent1(log, h, l, e) :: e < next)
    && (forall e: Ephemeral, r: Ephemeral | Sent2(log, h, l, e, r) :: e < r < next && Sent1(log, h, l, e))
    && (forall e: Ephemeral, r: Ephemeral | Sent3(log, h, l, e, r) :: Sent2(log, h, l, e, r))
    && (forall e: Ephemeral, r: Ephemeral, r': Ephemeral | Sent3(log, h, l, e, r) && Sent3(log, h, l, e, r') :: r == r')
    && (forall e: Ephemeral, r: Ephemeral, e': Ephemeral
          | Sent3(log, h, l, e, r) && Sent1(log, h, l, e') && e < e' :: r < e')
  }

  /** `h`, the greater id, holds nothing older than its latest message 1. */
  ghost predicate InitiatorInv(vh: Option<NoiseState>, log: seq<Packet>, h: NodeId, l: NodeId) {
    && InitiatorShape(vh)
    && (vh.Some? && vh.value.Handshaking? ==>
          var e := vh.value.state.transcript.e;
          && Sent1(log, h, l, e)
          && (forall e': Ephemeral | Sent1(log, h, l, e') :: e' <= e)
          && (forall r: Ephemeral :: !Sent3(log, h, l, e, r)))
    && (vh.Some? && vh.value.Transport? ==>
          var t := vh.value.transcript;
          && Sent3(log, h, l, t.e, t.r)
          && (forall e': Ephemeral | Sent1(log, h, l, e') :: e' <= t.e))
  }

  /** `l`, the smaller id, holds nothing older than its latest message 2. */
  ghost predicate ResponderInv(vl: Option<NoiseState>, log: seq<Packet>, h: NodeId, l: NodeId) {
    && ResponderShape(vl)
    && (vl.Some? && vl.value.Handshaking? ==>
          var t := vl.value.state.transcript;
          && Sent2(log, h, l, t.e, t.r)
          && (forall e': Ephemeral, r': Ephemeral | Sent2(log, h, l, e', r') :: r' <= t.r))
    && (vl.Some? && vl.value.Transport? ==>
          var t := vl.value.transcript;
          && Sent3(log, h, l, t.e, t.r)
          && (forall e': Ephemeral, r': Ephemeral | Sent2(log, h, l, e', r') :: r' <= t.r))
  }

  ghost predicate PairInv(vh: Option<NoiseState>, vl: Option<NoiseState>, log: seq<Packet>, h: NodeId, l: NodeId,
                          next: Ephemeral)
  {
    && h > l
    && LogInv(log, h, l, next)
    && InitiatorInv(vh, log, h, l)
    && ResponderInv(vl, log, h, l)
  }

  /** The heart of agreement: two established ends hold the same transcript. */
  lemma EstablishedAgree(th: Transcript, tl: Transcript, log: seq<Packet>, h: NodeId, l: NodeId, next: Ephemeral)
    requires PairInv(Some(Transport(th)), Some(Transport(tl)), log, h, l, next)
    ensures th == tl
  {
    assert Sent2(log, h, l, th.e, th.r) && Sent2(log, h, l, tl.e, tl.r);
    assert Sent1(log, h, l, th.e) && Sent1(log, h, l, tl.e);
  }

  /** All three messages of one run between two nodes, whichever of them initiated. */
  ghost predicate Exchanged(log: seq<Packet>, h: NodeId, l: NodeId, e: Ephemeral, r: Ephemeral) {
    Sent1(log, h, l, e) && Sent2(log, h, l, e, r) && Sent3(log, h, l, e, r)
  }

  /** Packets between other nodes do not matter. */
  lemma OtherPacketKeepsPair(vh: Option<NoiseState>, vl: Option<NoiseState>, log: seq<Packet>, h: NodeId, l: NodeId,
                             next: Ephemeral, from: NodeId, to: NodeId, reply: Option<Message>, next': Ephemeral)
    requires PairInv(vh, vl, log, h, l, next) && next <= next'
    requires reply.Some? ==> !(from == h && to == l) && !(from == l && to == h)
    ensures PairInv(vh, vl, Logged(log, from, to, reply), h, l, next')
  {
    var log' := Logged(log, from, to, reply);
    assert forall e: Ephemeral :: Sent1(log', h, l, e) <==> Sent1(log, h, l, e);
    assert forall e: Ephemeral, r: Ephemeral :: Sent2(log', h, l, e, r) <==> Sent2(log, h, l, e, r);
    assert forall e: Ephemeral, r: Ephemeral :: Sent3(log', h, l, e, r) <==> Sent3(log, h, l, e, r);
  }

  /** Forgetting a session is always safe. */
  lemma ForgettingKeepsPair(vh: Option<NoiseState>, vl: Option<NoiseState>, vh': Option<NoiseState>,
                            vl': Option<NoiseState>, log: seq<Packet>, h: NodeId, l: NodeId, next: Ephemeral)
    requires PairInv(vh, vl, log, h, l, next)
    requires vh' == vh || vh'.None? || vh'.value.Transitioning?
    requires vl' == vl || vl'.None? || vl'.value.Transitioning? || vl'.value.ExpectingInitiator?
    ensures PairInv(vh', vl', log, h, l, next)
  {
  }

  /** The greater id hears a Hello while it has no session. */
  lemma HelloKeepsPair(vl: Option<NoiseState>, log: seq<Packet>, h: NodeId, l: NodeId, next: Ephemeral)
    requires PairInv(None, vl, log, h, l, next)
    ensures var o := OnHello(h, l, next);
      PairInv(o.session, vl, Logged(log, h, l, o.reply), h, l, next + 1)
  {
    var o := OnHello(h, l, next);
    var log' := Logged(log, h, l, o.reply);
    assert forall e: Ephemeral :: Sent1(log', h, l, e) <==> Sent1(log, h, l, e) || e == next;
    assert forall e: Ephemeral, r: Ephemeral :: Sent2(log', h, l, e, r) <==> Sent2(log, h, l, e, r);
    assert forall e: Ephemeral, r: Ephemeral :: Sent3(log', h, l, e, r) <==> Sent3(log, h, l, e, r);
  }

  /** The greater id receives any packet the smaller one ever sent it. */
  lemma InitiatorStepKeepsPair(vh: Option<NoiseState>, vl: Option<NoiseState>, log: seq<Packet>, h: NodeId, l: NodeId,
                               m: Message, next: Ephemeral)
    requires PairInv(vh, vl, log, h, l, next)
    requires Packet(l, h, m) in log
    ensures var o := OnHandshake(h, l, vh, m, next);
      PairInv(o.session, vl, Logged(log, h, l, o.reply), h, l, next + 1)
  {
    var o := OnHandshake(h, l, vh, m, next);
    var log' := Logged(log, h, l, o.reply);
    if o.reply.Some? {
      var e, r := m.transcript.e, m.transcript.r;
      assert vh == Some(Initiating(e)) && Sent2(log, h, l, e, r);
      assert o == Outcome(Some(Transport(Pair(e, r))), Some(Message(3, Pair(e, r))), true);
      assert forall x: Ephemeral :: Sent1(log', h, l, x) <==> Sent1(log, h, l, x);
      assert forall x: Ephemeral, y: Ephemeral :: Sent2(log', h, l, x, y) <==> Sent2(log, h, l, x, y);
      assert forall x: Ephemeral, y: Ephemeral :: Sent3(log', h, l, x, y) <==>
          Sent3(log, h, l, x, y) || (x == e && y == r);
    }
  }

  /** The smaller id receives any packet the greater one ever sent it. */
  lemma ResponderStepKeepsPair(vh: Option<NoiseState>, vl: Option<NoiseState>, log: seq<Packet>, h: NodeId, l: NodeId,
                               m: Message, next: Ephemeral)
    requires PairInv(vh, vl, log, h, l, next)
    requires Packet(h, l, m) in log
    ensures var o := OnHandshake(l, h, vl, m, next);
      PairInv(vh, o.session, Logged(log, l, h, o.reply), h, l, next + 1)
  {
    var o := OnHandshake(l, h, vl, m, next);
    var log' := Logged(log, l, h, o.reply);
    if o.reply.Some? {
      var e := m.transcript.e;
      assert m == Message(1, One(e)) && Sent1(log, h, l, e);
      assert o == Outcome(Some(Responding(e, next)), Some(Message(2, Pair(e, next))), false);
      assert forall x: Ephemeral :: Sent1(log', h, l, x) <==> Sent1(log, h, l, x);
      assert forall x: Ephemeral, y: Ephemeral :: Sent2(log', h, l, x, y) <==>
          Sent2(log, h, l, x, y) || (x == e && y == next);
      assert forall x: Ephemeral, y: Ephemeral :: Sent3(log', h, l, x, y) <==> Sent3(log, h, l, x, y);
    } else if o.completed {
      var t := m.transcript;
      assert Sent3(log, h, l, t.e, t.r);
    }
  }

  /** In the states that occur, a readable message always finishes the handshake at the end
      that was waiting for it: the branch that stays in `Handshaking` is never taken. */
  lemma ReadableMessageCompletes(own: NodeId, peer: NodeId, v: NoiseState, m: Message, next: Ephemeral)
    requires own != peer && v.Handshaking?
    requires if own > peer then InitiatorShape(Some(v)) else ResponderShape(Some(v))
    ensures v.state.MyTurnToRead() && v.state.initiator == (own > peer)
    ensures var o := OnHandshake(own, peer, Some(v), m, next);
      if ReadMessage(v.state, m).Ok?
      then o.completed && o.session == Some(Transport(m.transcript)) && (o.reply.Some? <==> own > peer)
      else o == Outcome(Some(Transitioning), None, false)
  {
  }

  // ----- how many messages one session can still send

  function Budget(own: NodeId, peer: NodeId, v: Option<NoiseState>): nat {
    if own > peer then
      if v.None? then 2 else if v.value.Handshaking? then 1 else 0
    else
      if v.None? || v.value.ExpectingInitiator? then 1 else 0
  }

  /** Neither handler sends more than the budget it uses up. */
  lemma HandshakeUsesBudget(own: NodeId, peer: NodeId, v: Option<NoiseState>, m: Message, next: Ephemeral)
    requires own != peer
    requires if own > peer then InitiatorShape(v) else ResponderShape(v)
    ensures var o := OnHandshake(own, peer, v, m, next);
      Budget(own, peer, o.session) + (if o.reply.Some? then 1 else 0) <= Budget(own, peer, v)
  {
  }

  lemma HelloUsesBudget(own: NodeId, peer: NodeId, next: Ephemeral)
    requires own != peer
    ensures var o := OnHello(own, peer, next);
      Budget(own, peer, o.session) + (if o.reply.Some? then 1 else 0) <= Budget(own, peer, None)
  {
  }
}
