# Swarm mesh: a verified model

This project models the mesh node, its Noise handshake driver, its link-state flooding, its ping
bookkeeping and lock discipline, the round-trip statistics, and the registry service, and proves
what they keep true over whole runs.

`dafny verify dfyconfig.toml` checks everything.

## Layout

| file | what it holds |
|---|---|
| `Common.dfy` | identifiers, `Option`, `Result`, sizes of images |
| `Noise.dfy`, `Session.dfy` | ideal XXpsk3 transcripts, the handshake driver of one node towards one peer, the invariant of a pair of drivers |
| `LinkState.dfy`, `Ageing.dfy` | the newest-wins database, and how long entries live in it |
| `NodeStates.dfy`, `MeshNode.dfy` | the databases of one node: each handler as a function of their values, and the same handlers updating a class in place, proved equal |
| `Mesh.dfy` | N nodes and a network that loses, duplicates and reorders, as a step function over events |
| `MeshHandshake.dfy`, `MeshState.dfy`, `MeshPeers.dfy`, `MeshAnnounce.dfy`, `MeshPings.dfy`, `MeshRtt.dfy`, `MeshDelivery.dfy`, `MeshLsa.dfy`, `MeshFlood.dfy`, `MeshBounds.dfy`, `MeshAgeing.dfy` | the theorems over runs of the mesh |
| `Locks.dfy` | the tasks of one node and their five mutexes, over all interleavings |
| `Rtt.dfy` | round-trip statistics |
| `Registry.dfy` | the TTL registry |

## How the mesh is modelled

A message handler or timer body is one event of `Mesh.Event`. Three are split where they release
their locks: `broadcast_lsa` into drawing a number with the neighbour list (`GenerateAt`) and
storing and sending (`PublishAt`), `remove_stale_peers` into its scan (`ScanAt`) and its removal
(`EvictAt`), `handle_pong` into `can_take_pong` (`PongIn`) and the update that follows (`CountAt`).
So broadcasts of one node can overlap, a peer can say Hello between scan and removal, and a ping
round can purge a record whose pong has been taken and not yet counted. The receive task handles
one message at a time, so a node takes no second pong before it has counted the first.

A site also keeps what its node does not: whether a broadcast is owed (`due`), the pings' story with
the times of its rounds, and the round trips counted of each peer (`samples`). No event reads them
to decide what the node does; the theorems about announcing and about statistics speak of them.

Handshake and LinkState packets live in a log of everything ever sent. The network may deliver any
logged packet at any time, any number of times, in any order. First copies are counted in a
separate multiset in flight, so that exactly-once delivery and "nothing in flight" can be stated.
Pongs are not logged: a pong with any sender and number may arrive at any time.

Cryptography is ideal. A transcript is a pair of ephemerals, every ephemeral is drawn from a supply
that never repeats, a message reads only where it is due and only on the transcript it extends
(section 7.5 of the Noise Protocol Framework, revision 34, with the psk3 modifier of section 9.4).
Node ids are honest and packets reach the node they are addressed to.

## Where the code differs from its stated intent

- `handle_handshake` and `remove_stale_peers` call `broadcast_lsa` while they hold `session_db`,
  which `get_established_neighbors` locks again. The mesh and the deadlock-freedom theorem take the
  broadcast after the guards are released. `Locks.WrittenBodiesReacquire` and
  `Locks.WrittenFormWedges` prove when the written form waits for itself.
- `clean_stale_pings` keeps the records older than 30 s and drops the rest; its documentation says
  the opposite. The model follows the code. `NodeStates.CleanupAgreesOnlyOnEmptyTable` gives the
  exact condition under which both agree, `NodeStates.FreshPingIsDropped` a concrete record.
- `handle_pong` counts a sample for every pong that `can_take_pong` let through, also when a ping
  round has purged the record in between. Then the record is both purged and sampled.
  `MeshPings.PingConservation` proves conservation exactly for the keys to which this did not happen,
  `MeshPings.RoundBetweenTakeAndCount` is the run in which it does, and
  `MeshPings.EveryRoundLeavesSuchRecords` shows that such records are the ordinary ones.
- A failed handshake step leaves the session in `Transitioning` until the peer is evicted, and
  nothing is ever retransmitted. So completion is proved for exactly-once delivery only, and
  `MeshHandshake.DuplicateFirstMessageWedges` shows what one duplicate does, and
  `MeshHandshake.WedgedForGood` that only the eviction of the peer ends it.
- The sender skip of `flood_lsa_except_sender` compares the address a peer's Hello came from
  (multicast socket) with the address a LinkState packet came from (unicast socket).
  `MeshFlood.SkippedTargets` says exactly when it fires. The bounds on copies do not use it;
  convergence assumes only that no node's Hello address is another node's unicast address, which
  holds when no unicast port is 9999 (`MeshFlood.PortsTellAddressesApart`).
- A peer enters `peer_db` only on a Hello that arrives when a session exists, and a new link does not
  synchronise databases. Convergence therefore covers what an origin generates after the flooding
  graph has settled.
- `broadcast_lsa` draws its number and stores its entry under separate locks, so the origin's own
  entry may fall behind its latest number (`MeshFlood.OwnEntryIsLastStored`,
  `MeshFlood.BroadcastsCanOverlap`). Remote entries are not affected.
- Two registrations of one id with the same time leave the answer of `nodes()` to the order of the
  heap. `Registry.AnswerUniqueIffUntied` gives the exact condition for a unique answer; strictly
  increasing times of each id meet it. The timing results hold for every possible answer.

## Model

| member | source | states |
|---|---|---|
| Noise.WriteMessage | crates/noise/src/lib.rs:25-41 | a message is written only on the writer's turn, carries the next number, and extends the transcript by what that message of the pattern adds |
| Noise.WriteThenRead | crates/node/src/node.rs:828-832 | what one party writes, the other role on the same transcript reads, and both are on the same transcript again |
| Noise.ReadersAreFixed | crates/node/src/node.rs:828-852 | a fresh responder reads exactly the first messages, a waiting initiator exactly the answers to its own ephemeral, a waiting responder exactly the third message of its own pair |
| Noise.ThreeMessagesFinish | crates/noise/src/lib.rs:25-98 | a started initiator and a fresh responder finish on the same pair of ephemerals after exactly three messages, neither of them earlier |
| Session.EstablishedAgree | crates/node/src/node.rs:854-909 | under the pair invariant two established ends hold the same transcript |
| Session.HelloKeepsPair | crates/node/src/node.rs:713-741 | starting a handshake, also anew after a removal, keeps the pair invariant |
| Session.InitiatorStepKeepsPair | crates/node/src/node.rs:792-916 | the greater id receiving any packet ever sent to it, in any session state, keeps the pair invariant |
| Session.ResponderStepKeepsPair | crates/node/src/node.rs:792-916 | the smaller id receiving any packet ever sent to it, in any session state, keeps the pair invariant |
| Session.ForgettingKeepsPair | crates/node/src/node.rs:1008-1011 | dropping or failing a session at either end keeps the pair invariant |
| Session.ReadableMessageCompletes | crates/node/src/node.rs:842-909 | in the states that occur a readable message always completes the handshake and an unreadable one leaves Transitioning; the branch that keeps Handshaking is dead |
| Session.HandshakeUsesBudget | crates/node/src/node.rs:819-914 | no handshake message makes a side send more than the budget its session gives up |
| MeshHandshake.HandshakeInvStep | crates/node/src/node.rs:200-276 | every event of the mesh keeps the pair invariant of all pairs, and touches only the sessions it should |
| MeshHandshake.HelloReaction | crates/node/src/node.rs:691-741 | in every reachable state a Hello without a session makes the smaller id wait for an initiator and the greater one send message 1 with a new ephemeral and wait for message 2 |
| MeshHandshake.HandshakeReaction | crates/node/src/node.rs:792-915 | in every reachable state: an unsolicited message leaves nothing at the greater id; message 1 is answered with message 2 where an initiator is awaited; message 2 for the own ephemeral with message 3, ending the handshake; message 3 for the own pair ends it; anything else leaves Transitioning; a finished or failed session ignores it |
| MeshHandshake.HandshakeAgreement | crates/node/src/node.rs:775-916 | in every reachable state, under loss, duplication, reordering, removals and new handshakes, two nodes holding Transport for each other hold the same transcript, and its three messages were exchanged between them |
| MeshHandshake.StoredStatesHaveShape | crates/node/src/node.rs:691-728 | in every reachable state each stored handshake state waits to read, as initiator after one message at the greater id or responder after two at the smaller; ExpectingInitiator only at the smaller id; reading a message and completing are the same thing |
| MeshHandshake.TransportLeftOnlyByRemoval | crates/node/src/node.rs:910-914 | Transport and Transitioning are left only when their own side evicts the peer |
| MeshHandshake.DuplicateFirstMessageWedges | crates/node/src/node.rs:848-852 | a second copy of message 1 at a responder that waits for message 3 leaves it in Transitioning |
| MeshHandshake.WedgedForGood | crates/node/src/node.rs:206-215 | a session in Transitioning stays there to the end of every run in which its own side does not evict the peer, whatever Hellos and handshake messages arrive |
| MeshPeers.HelloRefreshesPeer | crates/node/src/node.rs:206-215 | in every reachable state a Hello from a node with a session records the moment, the address it came from and the port it names, keeps the round-trip statistics (none for a new peer), and touches no other peer and no session |
| MeshPeers.HeardPeerIsNotScanned | crates/node/src/node.rs:988-997 | after such a Hello no scan of the next 60 s finds the peer, whatever happens in between |
| MeshPeers.ScanIsExact | crates/node/src/node.rs:988-997 | in every reachable state a scan finds exactly the peers last seen more than 60 000 000 000 ns ago |
| MeshPeers.SilentPeerIsRemoved | crates/node/src/node.rs:988-1011 | a peer silent for over 60 s at a scan has neither peer entry nor session right after the removal that follows, whatever happens between the two lock sections |
| MeshPeers.HelloingPeerIsNeverEvicted | crates/node/src/node.rs:982-1011 | in every run in which each scan comes within 60 s of a Hello of the peer, the peer is never evicted |
| MeshPeers.HelloingPeerStaysWedged | crates/node/src/node.rs:206-215 | so a Transitioning session with such a peer stays Transitioning to the end of the run |
| MeshAnnounce.BroadcastDueExactlyOnEstablishing | crates/node/src/node.rs:854-894 | a handshake message asks for a broadcast exactly if it put the session with its sender into Transport; it changes no other session and takes none out of Transport |
| MeshAnnounce.DueArises | crates/node/src/node.rs:999-1014 | a broadcast is owed after an event exactly if it was owed and not drawn, a session came up, or a non-empty scan was removed |
| MeshAnnounce.LatestDrawIsCurrent | crates/node/src/node.rs:866-894 | in every run a node that owes no broadcast has drawn an advertisement under its latest number that lists exactly its Transport sessions, or has drawn none and has no such session |
| MeshHandshake.HandshakeMessageBound | crates/node/src/node.rs:718-741 | under any loss, duplication and reordering the greater id sends a peer at most 2(1+r) and the smaller at most 1+r handshake messages, r its own removals of that peer |
| MeshHandshake.HandshakeCompletion | crates/node/src/node.rs:793-909 | if the handshake packets between two nodes are delivered exactly once and neither evicts the other, whatever the rest of the mesh does, then once the greater id hears the smaller one every schedule makes at most three deliveries between them, and nothing is in flight between them exactly when both hold the same Transport after exactly three messages |
| LinkState.MergeAllKeepsNewest | crates/node/src/node.rs:1358-1389 | merging any sequence leaves, for exactly the origins that occur, one of the newest advertisements |
| LinkState.MergedIsMaximum | crates/node/src/node.rs:1358-1361 | for every advertisement merged, the database holds one of the same origin with a higher number, or the same number and no earlier timestamp |
| LinkState.FirstNewestStays | crates/node/src/node.rs:1360-1361 | of advertisements tied for newest the first one merged stays |
| LinkState.OrderIndependentIffNewestUnique | crates/node/src/node.rs:1358-1389 | permuting and duplicating what was received never changes the database, if and only if no origin has two different newest advertisements |
| NodeStates.CleanupAgreesOnlyOnEmptyTable | crates/node/src/node.rs:941-948 | the written ping clean-up and the documented one split the table between them, so they agree exactly on the empty table |
| NodeStates.FreshPingIsDropped | crates/node/src/node.rs:945-947 | a ping recorded this moment is dropped by the written clean-up and kept by the documented one |
| MeshNode.Node.constructor | crates/node/src/node.rs:96-113 | a new node has empty databases and sequence number 0 |
| MeshNode.Node.HandleHello | crates/node/src/node.rs:200-249 | new databases and reply are those of ReceiveHello: known session refreshes the peer, otherwise the role is fixed by id |
| MeshNode.Node.HandleHandshake | crates/node/src/node.rs:775-916 | new databases and reply are those of ReceiveHandshake, every error path included; a broadcast is due exactly if the session with the sender is in Transport now and was not before |
| MeshNode.Node.GenerateLsa | crates/node/src/node.rs:1260-1278 | one number higher, own id, time in seconds, exactly the established neighbours |
| MeshNode.Node.GetNeighborAddresses | crates/node/src/node.rs:1471-1484 | the rows are exactly the known peers with an established session, each with the peer's recorded unicast port and address |
| MeshNode.Node.SendToAllNeighbors | crates/node/src/node.rs:1447-1461 | sends exactly one copy to every established neighbour, each to the neighbour's recorded host at its recorded unicast port |
| MeshNode.Node.FloodLsaExceptSender | crates/node/src/node.rs:1411-1438 | sends exactly one copy to every established neighbour whose recorded address is not the sender's, each to its recorded host at its recorded unicast port |
| MeshNode.Node.BroadcastLsa | crates/node/src/node.rs:1314-1330 | generates, stores under the own id unconditionally, sends one copy to every established neighbour at its recorded host and unicast port |
| MeshNode.Node.HandleLsa | crates/node/src/node.rs:1345-1398 | stores and floods exactly when the advertisement is foreign and first or newer; copies go to recorded hosts and unicast ports |
| MeshNode.Node.CleanupStaleLsas | crates/node/src/node.rs:1518-1549 | keeps exactly the entries at most 180 s old and reports how many went |
| MeshNode.Node.ScanStalePeers | crates/node/src/node.rs:988-997 | lists exactly the peers last seen more than 60 000 000 000 ns ago, each once |
| MeshNode.Node.EvictPeers | crates/node/src/node.rs:999-1014 | removes peer and session of every listed peer and nothing else; a broadcast is due exactly if the list is not empty |
| MeshNode.Node.CleanStalePings | crates/node/src/node.rs:941-948 | keeps exactly the records older than 30 s, as written |
| MeshNode.Node.SendPing | crates/node/src/node.rs:1046-1056 | records the send time under (peer, number) |
| MeshNode.Node.PingPeers | crates/node/src/node.rs:384-415 | one round: next number, clean-up, one record per established neighbour |
| MeshNode.Node.CanTakePong | crates/node/src/node.rs:605-653 | lets a pong through exactly if its sender is a known, established peer with an outstanding record of that number, and hands out when that ping was sent |
| MeshNode.Node.CountTakenPong | crates/node/src/node.rs:525-538 | one sample for a peer that is still there, the record removed if it still exists; nothing for a peer that is gone |
| MeshNode.Node.HandlePong | crates/node/src/node.rs:513-539 | the two in sequence when no other task runs in between; any pong not let through changes nothing |
| MeshNode.Node.HandlePing | crates/node/src/node.rs:455-482 | answers exactly known, established peers, at their recorded port |
| MeshDelivery.SentArrives | crates/node/src/node.rs:1099-1107 | in every reachable state the copies a node sends to some targets reach exactly these, each once, at the host and port of the target's own unicast socket |
| MeshDelivery.PingIsAnsweredExactly | crates/node/src/node.rs:455-482 | in every reachable state a ping is answered exactly if its sender is a peer in Transport, at the port of the sender's own unicast socket |
| MeshState.PeersHaveSessions | crates/node/src/node.rs:1471-1484 | in every reachable state every peer has a session, flood targets are the advertised neighbours that are peers, and they are recorded at their own addresses |
| MeshState.EvictedWereSilentAtScan | crates/node/src/node.rs:982-1015 | eviction takes peer and session together, spares everyone outside the scan, and takes a peer that is not silent any more only if it said Hello at or after the scan |
| MeshPings.RoundSound | crates/node/src/node.rs:384-415 | a ping round keeps the account of every key: it records only new keys, purges exactly what it removes, and leaves a pong in hand explained |
| MeshPings.CountSound | crates/node/src/node.rs:525-538 | counting a pong keeps the account of every key: at most one sample per record, and a sampled record that is gone was purged while its pong was in hand |
| MeshPings.PingConservation | crates/node/src/node.rs:382-415 | in every reachable state no key is recorded, sampled or purged twice, however pongs are duplicated or peers removed and rediscovered; pings recorded are those outstanding plus sampled plus purged if and only if no round purged the key between the taking and the counting of its pong, and otherwise the record is both purged and sampled |
| MeshPings.RoundBetweenTakeAndCount | crates/node/src/node.rs:513-539 | from every reachable state, for every record at most 30 s old: taking its pong, a ping round, counting the pong leaves it recorded once, sampled once, purged once |
| MeshPings.EveryRoundLeavesSuchRecords | crates/node/src/node.rs:941-948 | right after any ping round every established peer has such a record |
| MeshPings.RoundIsExact | crates/node/src/node.rs:384-415 | in every reachable state a round keeps exactly the records older than 30 000 000 000 ns, unchanged, and adds one stamped with the moment for every peer in Transport, under the next number |
| MeshPings.PongIsTakenExactly | crates/node/src/node.rs:605-653 | in every reachable state a pong is taken exactly if it comes from a peer in Transport with an outstanding record of its number; what is taken is the key and the time of that record |
| MeshRtt.StatisticsAreOfSamples | crates/node/src/node.rs:525-533 | in every reachable state the statistics of a peer are those of the list of round trips counted since it became a peer, and describe that list; none without samples |
| MeshRtt.SampleIsRoundTrip | crates/node/src/node.rs:1054-1055 | a pong counted in any later state of a run adds as sample the time from the round that recorded its ping to the counting, as far as a duration can express it, to the list and to the statistics |
| MeshLsa.InvStep | crates/node/src/node.rs:1260-1330 | every event keeps sequence numbers unique, every advertisement a draft or published, only published ones stored and sent, and sessions only with nodes of the mesh |
| MeshLsa.GenerateNumbers | crates/node/src/node.rs:1261-1264 | the locked counter never gives a number twice |
| MeshLsa.EstablishedIsLinked | crates/node/src/node.rs:854-894 | a Transport session holds a pair of ephemerals whose three messages are all in the log |
| MeshLsa.GeneratedWasDrawn | crates/node/src/node.rs:1260-1278 | every advertisement there is was drawn by its origin in some event of the run |
| MeshLsa.BackedAdjacency | crates/node/src/node.rs:1260-1296 | in every run each stored entry was drawn by the origin it is filed under in some event of the run; in the state of that event its neighbours were exactly the origin's Transport sessions, each with a pair of ephemerals whose three messages had been exchanged |
| MeshLsa.ReceptionIsLexicographic | crates/node/src/node.rs:1354-1438 | in every reachable state a received advertisement is stored, and sent on to exactly the established peers not recorded under the packet's source address, if and only if it is foreign and the first of its origin, or has a higher number, or the same number and a later timestamp |
| MeshLsa.ReceivedMergesOrderIndependently | crates/node/src/node.rs:1358-1389 | whatever packets nodes receive in a run, merging them is independent of order and duplication |
| MeshFlood.SkippedTargets | crates/node/src/node.rs:1422-1426 | in a reachable state the sender skip omits a target exactly when its Hello address is the sender's unicast address |
| MeshFlood.PortsTellAddressesApart | crates/node/src/node.rs:1422-1426 | if no unicast port is the multicast port, no Hello address is a unicast address |
| MeshFlood.FloodInvRun | crates/node/src/node.rs:1354-1395 | over a settled run in which no packet of o is lost and no clean-up drops o's entry: if u stores L of o and v is its target, v stores at least L, or a copy at least L is in flight to v, or v is o |
| MeshFlood.PathHolds | crates/node/src/node.rs:1393-1437 | with nothing in flight the origin's published advertisement is held along every path |
| MeshFlood.FloodConverges | crates/node/src/node.rs:1345-1438 | after any such run in which o generated and nothing newer of o is in flight or unpublished, every other node o reaches stores o's highest-numbered advertisement, which is newer than all others of o; packets of other origins may be lost and their entries aged meanwhile |
| MeshFlood.OwnEntryIsLastStored | crates/node/src/node.rs:1323-1326 | the origin's own entry is what was stored last, and is the newest exactly if it carries the latest number |
| MeshFlood.BroadcastsCanOverlap | crates/node/src/node.rs:1314-1326 | from every reachable state two broadcasts can overlap so that the newer is published first and the older ends up as the own entry |
| MeshBounds.AcceptedOnceStep | crates/node/src/node.rs:1358-1389 | no event makes a node accept an advertisement it has accepted before |
| MeshBounds.AcceptedAtMostOnce | crates/node/src/node.rs:1358-1389 | from every reachable state on, as long as no clean-up drops an entry of its origin, under loss, duplication and changing links: every node accepts each advertisement generated from then on at most once, its origin never |
| MeshBounds.FloodIsBounded | crates/node/src/node.rs:1354-1461 | over a run with a settled graph in which no clean-up drops an entry of its origin, with any loss and duplication and without the sender skip, copies sent of an advertisement generated in it are at most the directed edges leaving the nodes that sent it on, hence at most those of the graph |
| MeshBounds.FloodTerminates | crates/node/src/node.rs:1354-1437 | from any reachable state, once nothing is generated, published or aged, deliveries of first copies plus the remaining potential never exceed the potential at the start |
| Ageing.NotStaleAtClean | crates/node/src/node.rs:1526-1527 | at any clean-up of another node that stores an entry of a live origin, the entry is at most 180 s old, if the node has by then received whatever the origin drew over 120 s before or something newer of it |
| Ageing.OwnNotStaleAtClean | crates/node/src/node.rs:1323-1326 | at any clean-up of the origin its own entry is at most 180 s old if it stores at least every 60 s and every draft within 120 s |
| Ageing.LiveOriginNeverRemoved | crates/node/src/node.rs:1492-1539 | with 60 s refresh and flood delay of at most 120 s the entry of a live origin, once stored at another node, is never removed; nodes that join late or get a newer copy in place of an older one included |
| Ageing.OwnEntryNeverRemoved | crates/node/src/node.rs:1314-1539 | the same for the own entry of an origin that stores at least every 60 s and every draft within 120 s |
| Ageing.DepartedOriginIsForgotten | crates/node/src/node.rs:1518-1566 | an entry, the origin's own included, is gone 241 s after the origin's last stamp and one clean-up period after it last came |
| MeshAgeing.DbFollowsLocals | crates/node/src/node.rs:1314-1549 | in every run of the mesh the whole database of a node is what merging its receptions, storing its own advertisements and applying its clean-ups, in order, leave |
| MeshAgeing.DrawsAreListed | crates/node/src/node.rs:1260-1278 | in every run the advertisements an origin draws have rising numbers and stamps in whole seconds of the clock, and there are no others of it |
| MeshAgeing.RunIsHonest | crates/node/src/node.rs:1314-1398 | in every run whatever a node receives or stores of an origin is one of its draws, and not from the future |
| MeshAgeing.LiveEntryStays | crates/node/src/node.rs:1492-1539 | in every run the entry of a live origin, once stored at any node, is never removed there; of the run only gaps and delays are assumed: draws at most 60 s apart and, at each clean-up of another node while it stores an entry, whatever was drawn over 120 s before received there or superseded by something newer received there; at the origin itself stores at most 60 s apart and within 120 s of the draw |
| MeshAgeing.DepartedEntryGone | crates/node/src/node.rs:1518-1566 | in every run, after an origin has stopped, no node stores its entry, the origin included, once 241 s have passed since the stamp of its last draw and one clean-up period since anything of it was last received or stored there |
| Locks.OrderedBodiesNeverDeadlock | crates/node/src/node.rs:390-393 | if every body nests locks in one order, then in every reachable interleaving of any number of tasks, if a task is inside a body some task inside a body can step |
| Locks.Drains | apps/node/src/main.rs:89-138 | from every disciplined state some continuation finishes every body and frees every lock |
| Locks.AllBodiesOrdered | crates/node/src/node.rs:142-1566 | with broadcasts after the guards are released, every body of every task acquires locks only in one order (peer, session, ping, link state, sequence number), releases only what it holds, and ends holding nothing |
| Locks.NodeNeverDeadlocks | apps/node/src/main.rs:89-138 | deadlock freedom of the node: both of the above for its own bodies |
| Locks.WedgedForever | crates/node/src/node.rs:1288 | a task waiting for its own lock never moves again, and no other task ever gets that lock |
| Locks.BodyAloneWedgesIffReacquires | crates/node/src/node.rs:792-894 | started among idle tasks and left alone, a body waits for itself exactly if it acquires a lock it already holds, and otherwise finishes |
| Locks.WrittenBodiesReacquire | crates/node/src/node.rs:792-894 | as written, `handle_handshake` reacquires exactly when the message completes the handshake, `remove_stale_peers` exactly when it found a stale peer |
| Locks.WrittenFormWedges | crates/node/src/node.rs:1005-1014 | as written, a state is reachable from idle tasks in which a task waits for the lock it holds |
| Rtt.MixtureStaysBetween | crates/mesh/src/rtt.rs:55-58 | the rounded 7:1 mixture stays between its two ends |
| Rtt.RttStats.constructor | crates/mesh/src/rtt.rs:71-79 | the default describes the empty history |
| Rtt.RttStats.Update | crates/mesh/src/rtt.rs:38-59 | the fields follow the history: if they described h they describe h with the sample appended |
| Rtt.StatisticsDescribeHistory | crates/mesh/src/rtt.rs:38-59 | after any non-empty history, count modulo 2^32, last sample, minimum and maximum are those of the history, and the average lies between them |
| Rtt.RoundingStep | crates/mesh/src/rtt.rs:54-58 | an error e becomes at most 7e/8 + 1/2 |
| Rtt.AverageErrorBound | crates/mesh/src/rtt.rs:54-58 | over every history the stored average is within 4 ns of the exact moving average (section 2 of RFC 6298, alpha 1/8) |
| Rtt.SharedSuffixContracts | crates/mesh/src/rtt.rs:54-58 | the exact averages of any two histories differ, after k shared samples at none of which the 32-bit counter comes round to one, by exactly (7/8)^k of the earlier difference |
| Rtt.StoredAveragesConverge | crates/mesh/src/rtt.rs:54-58 | the stored averages differ by that up to 8 ns |
| Registry.TopExists | crates/registry/src/lib.rs:58-62 | every non-empty heap has a top in the reversed order |
| Registry.CollectLatest | crates/registry/src/lib.rs:129-141 | in whatever order the heap is walked, one most recent entry for exactly the ids it holds |
| Registry.Values | crates/registry/src/lib.rs:143 | lists every value of the map once |
| Registry.Registry.constructor | crates/registry/src/lib.rs:80-85 | a new registry is empty |
| Registry.Registry.Add | crates/registry/src/lib.rs:106-111 | adds one entry with the current time and keeps all others |
| Registry.Registry.Nodes | crates/registry/src/lib.rs:129-144 | the answer has exactly one entry per id of the heap, a most recent one |
| Registry.Registry.Purge | crates/registry/src/lib.rs:166-175 | although the clock is read anew before every test and popping stops at the first valid top, exactly the entries at or below the last reading less the TTL are gone |
| Registry.HeapFollowsHistory | crates/registry/src/lib.rs:106-175 | what `add` and `purge` ensure about the heap is what the history of calls predicts |
| Registry.HeldIffSurvives | crates/registry/src/lib.rs:106-175 | an entry is held exactly if it was registered and no later purge reached it |
| Registry.AnswerUniqueIffUntied | crates/registry/src/lib.rs:129-144 | `nodes()` has only one possible answer if and only if no id has two different entries tied for latest |
| Registry.NodesIsPlainMap | crates/registry/src/lib.rs:129-144 | after any history in which the registration times of each id strictly increase the possible answers are exactly the listings of the plain map from id to latest registration, dropped at the purge that reaches it; one entry per id |
| Registry.PurgedCountNeverNegative | apps/mesh-registry/src/main.rs:315-322 | a purge drops exactly the ids whose latest entry expired, so the unsigned difference of counts cannot underflow |
| Registry.AtMostNineEntries | apps/mesh-registry/src/main.rs:210-317 | with heartbeats 10 s apart, 60 s TTL and a purge every 30 s the heap never holds more than nine entries of one node |
| Registry.BeatingNodeIsReported | apps/node/src/main.rs:153-156 | a node whose last beat is less than the TTL old is in every possible answer |
| Registry.SilentNodeDisappears | apps/mesh-registry/src/main.rs:310-317 | a node is in no answer once 90 s have passed since its last beat |

## Left out

- Sockets, `tokio::select!`, send timeouts, bincode encoding and HTTP handlers; packets are values in a log.
- Real cryptography, static keys and the pre-shared key; transcripts are pairs of ephemerals, ids are honest, packets reach their addressee.
- Retransmission and liveness under loss: the code has no retransmission, so completion is stated for exactly-once delivery.
- Interleavings inside a handler other than the three splits named above: each handler works on the databases as one step, and `generate_lsa` draws its number, neighbours and stamp in one. Their lock order over all interleavings is the subject of `Locks.dfy`.
- Other receptions of a node between the two halves of a pong are not excluded, although the receive task makes them impossible: the results hold for more runs than there are.
- Fair scheduling: the lock theorems say that some task can step and that every state can be drained, not that a particular task is served.
- The order of neighbours in an advertisement and of copies on the wire: sets and multisets.
- 64-bit sequence numbers and second counters are unbounded; the 32-bit sample counter wraps as in a release build, where a debug build would stop at the overflow.
- Rounding inside the moving average: the mixture is computed exactly and rounded once to the nearest nanosecond, ties to even, where the code uses `f64` seconds, which cannot represent every duration near the maximum.
- Monotonic instants, wall clock and delivery times are one clock in the mesh; `Instant` subtraction in the registry does not saturate.
- Array layout of `BinaryHeap`: a multiset with any greatest element on top.
- Metrics export, Prometheus queries and graph building: they only read the databases.
- `EncryptedData`, `PeerState` and the `MeshError` variants: nothing that runs uses them.
- Ping and Pong packets as such: pongs may arrive at any time with any content, and the answer to a ping is its port.
