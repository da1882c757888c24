/** The bookkeeping of ping records in every run (`ping_peers`, `clean_stale_pings`,
    `handle_pong` in crates/node/src/node.rs).  A pong is taken in one lock section and counted in
    a later one, so a round may purge its record in between. */
module MeshPings {
  import opened Common
  import opened Mesh
  import opened NodeStates
  import MeshHandshake
  import MeshState

  // ----- the story of one record

  ghost predicate PurgesAt(story: seq<PingStep>, j: nat, k: PingKey) {
    j < |story| && story[j].Round? && k in story[j].gone
  }

  ghost predicate SamplesAt(story: seq<PingStep>, m: nat, k: PingKey) {
    m < |story| && story[m] == Count(k, true)
  }

  /** The pong of k taken at i is still to be counted at m. */
  ghost predicate InHand(story: seq<PingStep>, i: nat, m: nat, k: PingKey) {
    i < m <= |story| && story[i] == Take(k) && forall n | i < n < m :: story[n].Round?
  }

  /** A round purged k between the taking and the counting of its pong. */
  ghost predicate Interrupted(story: seq<PingStep>, k: PingKey) {
    exists i: nat, j: nat, m: nat ::
        i < j < m && InHand(story, i, m, k) && PurgesAt(story, j, k) && SamplesAt(story, m, k)
  }

  // ----- the ledger of one node

  /** What the accounting of records depends on. */
  datatype Ledger = Ledger(table: set<PingKey>, sequence: nat, trace: PingTrace, hand: Option<PingKey>)

  function LedgerOf(s: Site): Ledger {
    Ledger(s.node.pings.Keys, s.node.pingSequence, s.pings, if s.pong.Some? then Some(s.pong.value.key) else None)
  }

  /** A record is outstanding, or sampled or purged or both; it is in hand only once recorded and
      before it is sampled; the multisets are what the story tells. */
  ghost predicate Accounted(l: Ledger, k: PingKey) {
    var t := l.trace;
    && t.sampled[k] <= 1 && t.purged[k] <= 1
    && t.recorded[k] == (if k in l.table || t.sampled[k] == 1 || t.purged[k] == 1 then 1 else 0)
    && (k in l.table ==> t.sampled[k] == 0 && t.purged[k] == 0)
    && (t.recorded[k] == 1 ==> k.1 <= l.sequence)
    && (l.hand == Some(k) ==> t.recorded[k] == 1 && t.sampled[k] == 0)
    && (t.purged[k] == 1 <==> exists j: nat :: PurgesAt(t.story, j, k))
    && (t.sampled[k] == 1 <==> exists m: nat :: SamplesAt(t.story, m, k))
  }

  /** A pong in hand was taken after every other pong, and if its record is gone then a round has
      purged it since. */
  ghost predicate HandTold(l: Ledger) {
    l.hand.Some? ==> exists i: nat :: InHand(l.trace.story, i, |l.trace.story|, l.hand.value) && PurgedOnlyAfter(l, i)
  }

  ghost predicate PurgedOnlyAfter(l: Ledger, i: nat)
    requires l.hand.Some?
  {
    l.hand.value in l.table || exists j: nat :: i < j && PurgesAt(l.trace.story, j, l.hand.value)
  }

  /** Sampled and purged means purged in between. */
  ghost predicate OverlapTold(l: Ledger, k: PingKey) {
    l.trace.sampled[k] == 1 && l.trace.purged[k] == 1 ==> Interrupted(l.trace.story, k)
  }

  ghost predicate Sound(l: Ledger) {
    HandTold(l) && forall k: PingKey :: Accounted(l, k) && OverlapTold(l, k)
  }

  lemma StoryGrows(story: seq<PingStep>, step: PingStep, k: PingKey)
    ensures var longer := story + [step];
      && (forall j: nat :: PurgesAt(longer, j, k) <==>
          PurgesAt(story, j, k) || (j == |story| && step.Round? && k in step.gone))
      && (forall m: nat :: SamplesAt(longer, m, k) <==>
          SamplesAt(story, m, k) || (m == |story| && step == Count(k, true)))
      && (Interrupted(story, k) ==> Interrupted(longer, k))
  {
    var longer := story + [step];
    forall j: nat
      ensures PurgesAt(longer, j, k) <==> PurgesAt(story, j, k) || (j == |story| && step.Round? && k in step.gone)
    {
    }
    if Interrupted(story, k) {
      var i: nat, j: nat, m: nat :| i < j < m && InHand(story, i, m, k) && PurgesAt(story, j, k) &&
          SamplesAt(story, m, k);
      assert InHand(longer, i, m, k) && PurgesAt(longer, j, k) && SamplesAt(longer, m, k);
    }
  }

  // ----- a round

  ghost predicate RoundEffect(l: Ledger, l': Ledger, gone: set<PingKey>, sent: set<PingKey>) {
    && gone <= l.table && (forall k <- sent :: k.1 == l.sequence + 1)
    && l'.table == l.table - gone + sent && l'.sequence == l.sequence + 1 && l'.hand == l.hand
    && l'.trace.recorded == l.trace.recorded + multiset(sent) && l'.trace.sampled == l.trace.sampled
    && l'.trace.purged == l.trace.purged + multiset(gone) && l'.trace.story == l.trace.story + [Round(gone)]
  }

  lemma RoundAccounts(l: Ledger, l': Ledger, gone: set<PingKey>, sent: set<PingKey>, k: PingKey)
    requires RoundEffect(l, l', gone, sent) && Accounted(l, k)
    ensures Accounted(l', k)
  {
    StoryGrows(l.trace.story, Round(gone), k);
    assert k in gone ==> PurgesAt(l'.trace.story, |l.trace.story|, k);
    assert k in sent ==> l.trace.recorded[k] == 0;
  }

  lemma RoundOverlap(l: Ledger, l': Ledger, gone: set<PingKey>, sent: set<PingKey>, k: PingKey)
    requires RoundEffect(l, l', gone, sent) && Accounted(l, k) && OverlapTold(l, k)
    ensures OverlapTold(l', k)
  {
    StoryGrows(l.trace.story, Round(gone), k);
  }

  lemma RoundHand(l: Ledger, l': Ledger, gone: set<PingKey>, sent: set<PingKey>)
    requires RoundEffect(l, l', gone, sent) && HandTold(l)
    ensures HandTold(l')
  {
    if l.hand.Some? {
      var k, story, longer := l.hand.value, l.trace.story, l'.trace.story;
      var i: nat :| InHand(story, i, |story|, k) && PurgedOnlyAfter(l, i);
      StoryGrows(story, Round(gone), k);
      assert InHand(longer, i, |longer|, k);
      if k in l.table {
        assert k in gone ==> PurgesAt(longer, |story|, k);
      } else {
        var j: nat :| i < j && PurgesAt(story, j, k);
        assert PurgesAt(longer, j, k);
      }
      assert PurgedOnlyAfter(l', i);
    }
  }

  lemma RoundSound(l: Ledger, l': Ledger, gone: set<PingKey>, sent: set<PingKey>)
    requires RoundEffect(l, l', gone, sent) && Sound(l)
    ensures Sound(l')
  {
    RoundHand(l, l', gone, sent);
    forall k: PingKey ensures Accounted(l', k) && OverlapTold(l', k) {
      assert Accounted(l, k) && OverlapTold(l, k);
      RoundAccounts(l, l', gone, sent, k);
      RoundOverlap(l, l', gone, sent, k);
    }
  }

  function Purged(n: NodeState, now: Instant): set<PingKey> {
    n.pings.Keys - RetainedPings(n.pings, now).Keys
  }

  function Pinged(n: NodeState, now: Instant): set<PingKey> {
    Records(FloodTargets(n), n.pingSequence + 1, now).Keys
  }

  lemma PingedNumbers(to: set<NodeId>, sequence: nat, now: Instant)
    ensures forall k: PingKey | k in Records(to, sequence, now).Keys :: k.1 == sequence
  {
  }

  lemma RoundTable(n: NodeState, now: Instant)
    ensures PingRound(n, now).pings.Keys == n.pings.Keys - Purged(n, now) + Pinged(n, now)
  {
    var kept := RetainedPings(n.pings, now);
    assert kept.Keys <= n.pings.Keys;
    KeysOfSum(kept, Records(FloodTargets(n), n.pingSequence + 1, now));
    assert n.pings.Keys - Purged(n, now) == kept.Keys;
  }

  lemma KeysOfSum<K, V>(a: map<K, V>, b: map<K, V>)
    ensures (a + b).Keys == a.Keys + b.Keys
  {
  }

  lemma RoundHasEffect(net: Net, u: NodeId)
    requires u in net.sites
    ensures var s := net.sites[u];
      RoundEffect(LedgerOf(s), LedgerOf(NextPing(net, u).sites[u]), Purged(s.node, net.now), Pinged(s.node, net.now))
  {
    var n := net.sites[u].node;
    RoundTable(n, net.now);
    PingedNumbers(FloodTargets(n), n.pingSequence + 1, net.now);
  }

  // ----- a pong taken, a pong counted

  lemma TakeSound(l: Ledger, l': Ledger, k: PingKey)
    requires Sound(l) && l.hand.None? && k in l.table
    requires l' == l.(hand := Some(k), trace := l.trace.(story := l.trace.story + [Take(k)]))
    ensures Sound(l')
  {
    forall x: PingKey ensures Accounted(l', x) && OverlapTold(l', x) {
      assert Accounted(l, x) && OverlapTold(l, x);
      StoryGrows(l.trace.story, Take(k), x);
    }
    assert InHand(l'.trace.story, |l.trace.story|, |l'.trace.story|, k) && PurgedOnlyAfter(l', |l.trace.story|);
  }

  ghost predicate CountEffect(l: Ledger, l': Ledger, k: PingKey, present: bool) {
    && l.hand == Some(k) && l'.hand.None? && l'.sequence == l.sequence
    && l'.table == (if present then l.table - {k} else l.table)
    && l'.trace == l.trace.(
         sampled := if present then l.trace.sampled + multiset{k} else l.trace.sampled,
         story := l.trace.story + [Count(k, present)])
  }

  lemma CountAccounts(l: Ledger, l': Ledger, k: PingKey, present: bool, x: PingKey)
    requires CountEffect(l, l', k, present) && Accounted(l, x)
    ensures Accounted(l', x)
  {
    StoryGrows(l.trace.story, Count(k, present), x);
    assert present && x == k ==> SamplesAt(l'.trace.story, |l.trace.story|, x);
  }

  lemma CountOverlap(l: Ledger, l': Ledger, k: PingKey, present: bool, x: PingKey)
    requires CountEffect(l, l', k, present) && HandTold(l) && Accounted(l, x) && OverlapTold(l, x)
    ensures OverlapTold(l', x)
  {
    var story, longer := l.trace.story, l'.trace.story;
    StoryGrows(story, Count(k, present), x);
    if present && x == k && l.trace.purged[x] == 1 {
      var i: nat :| InHand(story, i, |story|, k) && PurgedOnlyAfter(l, i);
      var j: nat :| i < j && PurgesAt(story, j, k);
      assert InHand(longer, i, |story|, k) && PurgesAt(longer, j, k) && SamplesAt(longer, |story|, k);
    }
  }

  lemma CountSound(l: Ledger, l': Ledger, k: PingKey, present: bool)
    requires CountEffect(l, l', k, present) && Sound(l)
    ensures Sound(l')
  {
    forall x: PingKey ensures Accounted(l', x) && OverlapTold(l', x) {
      assert Accounted(l, x) && OverlapTold(l, x);
      CountAccounts(l, l', k, present, x);
      CountOverlap(l, l', k, present, x);
    }
  }

  // ----- every run

  ghost predicate SiteSound(s: Site) { Sound(LedgerOf(s)) }

  ghost predicate PingsSound(net: Net) {
    forall u <- net.sites :: SiteSound(net.sites[u])
  }

  lemma SoundWhenKept(net: Net, net': Net)
    requires PingsSound(net) && PingsKept(net, net')
    ensures PingsSound(net')
  {
    forall u | u in net'.sites ensures SiteSound(net'.sites[u]) {
      assert SiteSound(net.sites[u]) && SamePings(net.sites[u], net'.sites[u]);
    }
  }

  lemma SoundAtOneSite(net: Net, net': Net, u: NodeId)
    requires PingsSound(net) && u in net.sites && u in net'.sites
    requires net'.sites == net.sites[u := net'.sites[u]] && SiteSound(net'.sites[u])
    ensures PingsSound(net')
  {
    forall v | v in net'.sites ensures SiteSound(net'.sites[v]) {
      assert v != u ==> SiteSound(net.sites[v]);
    }
  }

  lemma RoundKeeps(net: Net, u: NodeId)
    requires u in net.sites && PingsSound(net)
    ensures PingsSound(NextPing(net, u))
  {
    var s := net.sites[u];
    assert SiteSound(s);
    RoundHasEffect(net, u);
    RoundSound(LedgerOf(s), LedgerOf(NextPing(net, u).sites[u]), Purged(s.node, net.now), Pinged(s.node, net.now));
    SoundAtOneSite(net, NextPing(net, u), u);
  }

  lemma TakeKeeps(net: Net, to: NodeId, from: NodeId, sequence: nat)
    requires to in net.sites && net.sites[to].pong.None? && PingsSound(net)
    ensures PingsSound(NextPong(net, to, from, sequence))
  {
    var s := net.sites[to];
    assert SiteSound(s);
    if Samples(s.node, from, sequence) {
      TakeSound(LedgerOf(s), LedgerOf(NextPong(net, to, from, sequence).sites[to]), (from, sequence));
      SoundAtOneSite(net, NextPong(net, to, from, sequence), to);
    }
  }

  lemma CountKeeps(net: Net, u: NodeId)
    requires u in net.sites && net.sites[u].pong.Some? && PingsSound(net)
    ensures PingsSound(NextCount(net, u))
  {
    var s := net.sites[u];
    assert SiteSound(s);
    var k := s.pong.value.key;
    CountSound(LedgerOf(s), LedgerOf(NextCount(net, u).sites[u]), k, k.0 in s.node.peers);
    SoundAtOneSite(net, NextCount(net, u), u);
  }

  lemma PingsKeptOtherwise(net: Net, ev: Event)
    requires Enabled(net, ev) && !ev.PingAt? && !ev.PongIn? && !ev.CountAt?
    ensures PingsKept(net, Next(net, ev))
  {
    if ev.HelloIn? {
      HelloFrame(net, ev.to, ev.from);
    } else if ev.HandshakeIn? {
      HandshakeFrame(net, ev.p, ev.first);
    } else if ev.ScanAt? {
      ScanFrame(net, ev.u);
    } else if ev.EvictAt? {
      EvictFrame(net, ev.u);
    } else if ev.GenerateAt? {
      GenerateFrame(net, ev.u);
    } else if ev.PublishAt? {
      PublishFrame(net, ev.u, ev.lsa);
    } else if ev.LsaIn? {
      LsaFrame(net, ev.q, ev.first);
    } else if ev.CleanAt? {
      CleanFrame(net, ev.u);
    }
  }

  lemma PingsSoundStep(net: Net, ev: Event)
    requires Enabled(net, ev) && PingsSound(net)
    ensures PingsSound(Next(net, ev))
  {
    if ev.PingAt? {
      RoundKeeps(net, ev.u);
    } else if ev.PongIn? {
      TakeKeeps(net, ev.to, ev.from, ev.sequence);
    } else if ev.CountAt? {
      CountKeeps(net, ev.u);
    } else {
      PingsKeptOtherwise(net, ev);
      SoundWhenKept(net, Next(net, ev));
    }
  }

  lemma {:induction false} PingsSoundRun(net: Net, evs: seq<Event>)
    requires Runs(net, evs) && PingsSound(net)
    ensures PingsSound(After(net, evs))
    decreases |evs|
  {
    if evs != [] {
      PingsSoundStep(net, evs[0]);
      PingsSoundRun(Next(net, evs[0]), evs[1..]);
    }
  }

  lemma ReachablePingsSound(net: Net)
    requires Reachable(net)
    ensures PingsSound(net)
  {
    var start, evs :| Initial(start) && Runs(start, evs) && After(start, evs) == net;
    forall u | u in start.sites ensures SiteSound(start.sites[u]) {
      forall k: PingKey ensures Accounted(LedgerOf(start.sites[u]), k) {
      }
    }
    PingsSoundRun(start, evs);
  }

  /** How a key stands: recorded, outstanding, sampled, purged. */
  function Standing(s: Site, k: PingKey): (nat, nat, nat, nat) {
    (s.pings.recorded[k], if k in s.node.pings then 1 else 0, s.pings.sampled[k], s.pings.purged[k])
  }

  /** In every run, whatever pongs arrive (lost, duplicated, late or invented) and however peers
      come and go: no key is recorded twice, no record is sampled or purged twice, and the pings
      recorded are those outstanding plus those sampled plus those purged, key by key, exactly
      for the keys that no round purged between the taking and the counting of their pong.  For
      such a key the record is both purged and sampled. */
  lemma PingConservation(net: Net, u: NodeId, k: PingKey)
    requires Reachable(net) && u in net.sites
    ensures var s := net.sites[u];
      var (recorded, outstanding, sampled, purged) := Standing(s, k);
      && recorded <= 1 && sampled <= 1 && purged <= 1
      && (recorded == outstanding + sampled + purged <==> !Interrupted(s.pings.story, k))
      && (Interrupted(s.pings.story, k) ==> (recorded, outstanding, sampled, purged) == (1, 0, 1, 1))
  {
    ReachablePingsSound(net);
    assert SiteSound(net.sites[u]);
    var l := LedgerOf(net.sites[u]);
    assert Accounted(l, k) && OverlapTold(l, k);
    if Interrupted(l.trace.story, k) {
      var i: nat, j: nat, m: nat :| i < j < m && InHand(l.trace.story, i, m, k) && PurgesAt(l.trace.story, j, k) &&
          SamplesAt(l.trace.story, m, k);
      assert PurgesAt(l.trace.story, j, k) && SamplesAt(l.trace.story, m, k);
    }
  }

  // ----- what a round and a pong do, spelled out

  /** A round keeps exactly the records older than 30 s, as written, and adds one, stamped with the
      present moment, for every peer with a session in transport mode, under the next number. */
  lemma RoundIsExact(net: Net, u: NodeId, k: PingKey)
    requires Reachable(net) && u in net.sites
    ensures u in Next(net, PingAt(u)).sites
    ensures var n, n' := net.sites[u].node, Next(net, PingAt(u)).sites[u].node;
      var pinged := k.1 == n.pingSequence + 1 && k.0 in n.peers && k.0 in n.sessions && n.sessions[k.0].Transport?;
      && n'.pingSequence == n.pingSequence + 1
      && (k in n'.pings <==> pinged || (k in n.pings && net.now - n.pings[k] > 30_000_000_000))
      && (pinged ==> n'.pings[k] == net.now)
      && (k in n'.pings && !pinged ==> n'.pings[k] == n.pings[k])
  {
    RoundHasEffect(net, u);
    PingedExactly(net.sites[u].node, net.now, k);
    RetainedExactly(net.sites[u].node.pings, net.now, k);
  }

  lemma PingedExactly(n: NodeState, now: Instant, k: PingKey)
    ensures k in Records(FloodTargets(n), n.pingSequence + 1, now) <==>
      k.1 == n.pingSequence + 1 && k.0 in n.peers && k.0 in n.sessions && n.sessions[k.0].Transport?
  {
    RecordsExactly(FloodTargets(n), n.pingSequence + 1, now, k);
  }

  lemma RecordsExactly(to: set<NodeId>, sequence: nat, now: Instant, k: PingKey)
    ensures k in Records(to, sequence, now) <==> k.1 == sequence && k.0 in to
  {
    var p, n := k.0, k.1;
    assert k == (p, n);
    if p in to && n == sequence {
      RecordOf(to, sequence, now, p);
    }
  }

  lemma RecordOf(to: set<NodeId>, sequence: nat, now: Instant, p: NodeId)
    requires p in to
    ensures (p, sequence) in Records(to, sequence, now)
  {
  }

  lemma RetainedExactly(pings: map<PingKey, Instant>, now: Instant, k: PingKey)
    ensures k in RetainedPings(pings, now) <==> k in pings && now - pings[k] > 30_000_000_000
  {
  }

  /** A pong is taken exactly if it comes from a peer with a session in transport mode and its record
      is in the table; what is taken is the record's key and time, and nothing else changes. */
  lemma PongIsTakenExactly(net: Net, u: NodeId, from: NodeId, sequence: nat)
    requires Reachable(net) && Enabled(net, PongIn(u, from, sequence))
    ensures u in Next(net, PongIn(u, from, sequence)).sites
    ensures var s, s' := net.sites[u], Next(net, PongIn(u, from, sequence)).sites[u];
      var n, k := s.node, (from, sequence);
      && s'.node == n
      && s'.pong == if from in n.peers && from in n.sessions && n.sessions[from].Transport? && k in n.pings
                    then Some(Pong(k, n.pings[k])) else None
  {
    MeshState.ReachableCoherent(net);
    assert MeshState.CoherentSite(net, u);
  }

  // ----- a run in which a round falls between the two halves of a pong

  /** A pong for a record of at most 30 s can be taken, a round then purges the record, and the
      pong is counted all the same: the key ends up recorded once, sampled once and purged once. */
  lemma RoundBetweenTakeAndCount(net: Net, u: NodeId, from: NodeId, sequence: nat)
    requires Reachable(net) && u in net.sites && net.sites[u].pong.None?
    requires Samples(net.sites[u].node, from, sequence)
    requires Elapsed(net.now, net.sites[u].node.pings[(from, sequence)]) <= PING_TIMEOUT
    ensures var evs := [PongIn(u, from, sequence), PingAt(u), CountAt(u)];
      && Runs(net, evs) && Reachable(After(net, evs)) && u in After(net, evs).sites
      && Standing(After(net, evs).sites[u], (from, sequence)) == (1, 0, 1, 1)
  {
    var k: PingKey := (from, sequence);
    ReachablePingsSound(net);
    assert SiteSound(net.sites[u]) && Accounted(LedgerOf(net.sites[u]), k);
    TakenThenPurged(net, u, from, sequence);
    var net1 := NextPong(net, u, from, sequence);
    var net2 := NextPing(net1, u);
    MeshHandshake.ReachableStep(net, PongIn(u, from, sequence));
    MeshHandshake.ReachableStep(net1, PingAt(u));
    MeshHandshake.ReachableStep(net2, CountAt(u));
    ThreeEvents(net, PongIn(u, from, sequence), PingAt(u), CountAt(u));
  }

  lemma TakenThenPurged(net: Net, u: NodeId, from: NodeId, sequence: nat)
    requires u in net.sites && net.sites[u].pong.None? && Samples(net.sites[u].node, from, sequence)
    requires Elapsed(net.now, net.sites[u].node.pings[(from, sequence)]) <= PING_TIMEOUT
    requires Accounted(LedgerOf(net.sites[u]), (from, sequence))
    ensures var net1 := NextPong(net, u, from, sequence);
      u in net1.sites
      && var net2 := NextPing(net1, u);
      && u in net2.sites && net2.sites[u].pong.Some?
      && Standing(NextCount(net2, u).sites[u], (from, sequence)) == (1, 0, 1, 1)
  {
    var k: PingKey := (from, sequence);
    var net1 := NextPong(net, u, from, sequence);
    var n := net1.sites[u].node;
    var net2 := NextPing(net1, u);
    RoundHasEffect(net1, u);
    assert n == net.sites[u].node && k in Purged(n, net.now) && net2.sites[u].pong.Some?;
    PurgedThenCounted(LedgerOf(net.sites[u]), LedgerOf(net1.sites[u]), LedgerOf(net2.sites[u]),
                      LedgerOf(NextCount(net2, u).sites[u]), Purged(n, net.now), Pinged(n, net.now), k);
  }

  lemma PurgedThenCounted(l: Ledger, l1: Ledger, l2: Ledger, l3: Ledger, gone: set<PingKey>, sent: set<PingKey>,
                          k: PingKey)
    requires Accounted(l, k) && k in l.table
    requires l1 == l.(hand := Some(k), trace := l.trace.(story := l.trace.story + [Take(k)]))
    requires RoundEffect(l1, l2, gone, sent) && k in gone && CountEffect(l2, l3, k, true)
    ensures k !in l3.table && l3.trace.recorded[k] == l3.trace.sampled[k] == l3.trace.purged[k] == 1
  {
    assert k !in sent;
  }

  lemma ThreeEvents(net: Net, a: Event, b: Event, c: Event)
    requires Enabled(net, a) && Enabled(Next(net, a), b) && Enabled(Next(Next(net, a), b), c)
    ensures Runs(net, [a, b, c]) && After(net, [a, b, c]) == Next(Next(Next(net, a), b), c)
  {
    var net1 := Next(net, a);
    var net2 := Next(net1, b);
    assert [a, b, c][1..] == [b, c] && [b, c][1..] == [c] && [c][1..] == [];
    assert Runs(Next(net2, c), []);
    assert Runs(net2, [c]) && After(net2, [c]) == Next(net2, c);
    assert Runs(net1, [b, c]) && After(net1, [b, c]) == Next(net2, c);
  }

  /** And such records are what every round leaves: right after a round, each established peer
      has one. */
  lemma EveryRoundLeavesSuchRecords(net: Net, u: NodeId, from: NodeId)
    requires Reachable(net) && u in net.sites && from in FloodTargets(net.sites[u].node)
    ensures var net' := Next(net, PingAt(u));
      && u in net'.sites && var sequence := net'.sites[u].node.pingSequence;
      && Samples(net'.sites[u].node, from, sequence)
      && Elapsed(net'.now, net'.sites[u].node.pings[(from, sequence)]) <= PING_TIMEOUT
  {
    MeshState.PeersHaveSessions(net, u);
    MeshState.ReachableCoherent(net);
    assert MeshState.CoherentSite(net, u);
  }
}
