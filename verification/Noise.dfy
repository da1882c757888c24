/** The handshake pattern behind crates/noise/src/lib.rs: `Noise_XXpsk3` (section 7.5 of the
    Noise Protocol Framework, revision 34, with the psk3 modifier of section 9.4).

    Cryptography is ideal.  A transcript is the pair of ephemeral keys drawn so far, a message
    is bound to the transcript it extends, and every ephemeral is drawn from a supply of
    numbers that never repeats. */
module Noise {
  import opened Common

  type Ephemeral = nat

  datatype Transcript = Empty | One(e: Ephemeral) | Pair(e: Ephemeral, r: Ephemeral)

  /** Handshake message number `index` (1, 2 or 3) and the transcript it leaves behind. */
  datatype Message = Message(index: nat, transcript: Transcript)

  /** The pattern has three messages. */
  const MESSAGES := 3

  /** A handshake in progress: `turn` messages have been written or read. */
  datatype HandshakeState = HandshakeState(initiator: bool, turn: nat, transcript: Transcript) {
    predicate Finished() { turn == MESSAGES }

    predicate MyTurnToWrite() { turn < MESSAGES && (turn % 2 == 0) == initiator }

    predicate MyTurnToRead() { turn < MESSAGES && (turn % 2 == 0) != initiator }
  }

  function BuildInitiator(): HandshakeState { HandshakeState(true, 0, Empty) }

  function BuildResponder(): HandshakeState { HandshakeState(false, 0, Empty) }

  /** Whether `after` is `prev` followed by what message `index` adds to it. */
  predicate Extends(prev: Transcript, after: Transcript, index: nat) {
    match index
    case 1 => prev.Empty? && after.One?
    case 2 => prev.One? && after.Pair? && after.e == prev.e
    case 3 => prev.Pair? && after == prev
    case _ => false
  }

  /** The next message; `next` is the ephemeral drawn if the message carries one. */
  function WriteMessage(s: HandshakeState, next: Ephemeral): (r: Result<(HandshakeState, Message)>)
    ensures r.Ok? ==> s.MyTurnToWrite() && r.value.0.turn == s.turn + 1 && r.value.1.index == s.turn + 1
    ensures r.Ok? ==> Extends(s.transcript, r.value.1.transcript, s.turn + 1)
  {
    if !s.MyTurnToWrite() then Err
    else
      match (s.turn, s.transcript)
      case (0, Empty) => Ok((HandshakeState(s.initiator, 1, One(next)), Message(1, One(next))))
      case (1, One(e)) => Ok((HandshakeState(s.initiator, 2, Pair(e, next)), Message(2, Pair(e, next))))
      case (2, Pair(e, r)) => Ok((HandshakeState(s.initiator, 3, s.transcript), Message(3, s.transcript)))
      case _ => Err
  }

  /** A message reads only where it is due and only on the transcript it was written for. */
  function ReadMessage(s: HandshakeState, m: Message): (r: Result<HandshakeState>) {
    if s.MyTurnToRead() && m.index == s.turn + 1 && Extends(s.transcript, m.transcript, m.index)
    then Ok(HandshakeState(s.initiator, s.turn + 1, m.transcript))
    else Err
  }

  /** An initiator that has written its first message. */
  function StartHandshake(next: Ephemeral): (r: (HandshakeState, Message)) {
    WriteMessage(BuildInitiator(), next).value
  }

  /** What a party writes, a party in the opposite role on the same transcript reads, and the
      two are on the same transcript again. */
  lemma WriteThenRead(s: HandshakeState, next: Ephemeral)
    requires WriteMessage(s, next).Ok?
    ensures var (written, m) := WriteMessage(s, next).value;
      && written.transcript == m.transcript
      && ReadMessage(HandshakeState(!s.initiator, s.turn, s.transcript), m)
         == Ok(HandshakeState(!s.initiator, written.turn, written.transcript))
  {
    var (_, m) := WriteMessage(s, next).value;
    assert Extends(s.transcript, m.transcript, s.turn + 1);
  }

  /** Who reads what: a fresh responder any message 1, a waiting initiator only answers to its
      own ephemeral, a waiting responder only the message 3 of its own pair. */
  lemma ReadersAreFixed(e: Ephemeral, r: Ephemeral, m: Message)
    ensures ReadMessage(BuildResponder(), m).Ok? <==> exists x: Ephemeral :: m == Message(1, One(x))
    ensures ReadMessage(HandshakeState(true, 1, One(e)), m).Ok? <==> exists x: Ephemeral :: m == Message(2, Pair(e, x))
    ensures ReadMessage(HandshakeState(false, 2, Pair(e, r)), m).Ok? <==> m == Message(3, Pair(e, r))
  {
    if m.transcript.One? {
      assert m == Message(m.index, One(m.transcript.e));
    } else if m.transcript.Pair? {
      assert m == Message(m.index, Pair(m.transcript.e, m.transcript.r));
    }
  }

  /** The pattern itself: a started initiator and a fresh responder both finish, on the same
      transcript, after exactly three messages, each read by the party it was written for, and
      no earlier. */
  lemma ThreeMessagesFinish(e: Ephemeral, r: Ephemeral, unused: Ephemeral)
    ensures
      var (i1, m1) := StartHandshake(e);
      var r1 := ReadMessage(BuildResponder(), m1);
      && r1.Ok? && !i1.Finished() && !r1.value.Finished()
      && var w2 := WriteMessage(r1.value, r);
      && w2.Ok? && !w2.value.0.Finished()
      && var i2 := ReadMessage(i1, w2.value.1);
      && i2.Ok? && !i2.value.Finished()
      && var w3 := WriteMessage(i2.value, unused);
      && w3.Ok? && w3.value.0.Finished()
      && var r3 := ReadMessage(w2.value.0, w3.value.1);
      && r3.Ok? && r3.value.Finished()
      && r3.value.transcript == w3.value.0.transcript == Pair(e, r)
  {
  }
}
