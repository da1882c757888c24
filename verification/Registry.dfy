/** The TTL registry (crates/registry/src/lib.rs): a heap that keeps every registration, a
    purge that stops at the first entry still valid, and a query for the latest entry per id. */
module Registry {
  import opened Common

  /** Instants and durations in milliseconds. */
  type Instant = int

  datatype Node = Node(id: NodeId, ip: string, metricsPort: nat)

  datatype NodeEntry = NodeEntry(node: Node, seen: Instant)

  datatype Ordering = Less | Equal | Greater

  function CompareInstants(a: Instant, b: Instant): Ordering {
    if a < b then Less else if a == b then Equal else Greater
  }

  /** `NodeEntry::cmp` compares the other way round, so the greatest entry is the oldest. */
  function Compare(a: NodeEntry, b: NodeEntry): Ordering { CompareInstants(b.seen, a.seen) }

  /** What a binary heap may return from `peek`: any greatest element. */
  predicate IsTop(top: NodeEntry, heap: multiset<NodeEntry>) {
    top in heap && forall e <- heap :: Compare(e, top) != Greater
  }

  lemma TopExists(heap: multiset<NodeEntry>)
    requires heap != multiset{}
    ensures exists top :: IsTop(top, heap)
  {
    var e :| e in heap;
    var rest := heap - multiset{e};
    assert heap == rest + multiset{e};
    if rest == multiset{} {
      assert IsTop(e, heap);
    } else {
      TopExists(rest);
      var t :| IsTop(t, rest);
      TopWithOneMore(t, rest, e);
    }
  }

  lemma TopWithOneMore(top: NodeEntry, rest: multiset<NodeEntry>, e: NodeEntry)
    requires IsTop(top, rest)
    ensures IsTop(if Compare(e, top) == Greater then e else top, rest + multiset{e})
  {
  }

  /** The entries seen after the cut-off, with their multiplicities. */
  ghost predicate IsUnexpired(after: multiset<NodeEntry>, before: multiset<NodeEntry>, cutoff: Instant) {
    forall e: NodeEntry :: after[e] == if e.seen > cutoff then before[e] else 0
  }

  /** latest has exactly the ids of the heap, each with one of its most recent entries. */
  ghost predicate IsLatest(latest: map<NodeId, NodeEntry>, heap: multiset<NodeEntry>) {
    && (forall e <- heap :: e.node.id in latest && e.seen <= latest[e.node.id].seen)
    && (forall id {:trigger heap[latest[id]]} | id in latest :: latest[id] in heap && latest[id].node.id == id)
  }

  lemma LatestWithOneMore(found: map<NodeId, NodeEntry>, done: multiset<NodeEntry>, cur: NodeEntry)
    requires IsLatest(found, done)
    ensures var kept := cur.node.id in found && cur.seen <= found[cur.node.id].seen;
      IsLatest(if kept then found else found[cur.node.id := cur], done + multiset{cur})
  {
  }

  lemma TopBoundsRest(top: NodeEntry, heap: multiset<NodeEntry>)
    requires IsTop(top, heap)
    ensures forall e <- heap :: top.seen <= e.seen
  {
  }

  lemma SplitIsUnexpired(kept: multiset<NodeEntry>, popped: multiset<NodeEntry>, cutoff: Instant)
    requires forall e <- kept :: e.seen > cutoff
    requires forall e <- popped :: e.seen <= cutoff
    ensures IsUnexpired(kept, kept + popped, cutoff)
  {
    forall e: NodeEntry ensures kept[e] == if e.seen > cutoff then (kept + popped)[e] else 0 {
      assert (kept + popped)[e] == kept[e] + popped[e];
    }
  }

  ghost predicate ClockAdvances(clock: nat -> Instant) {
    forall i: nat, j: nat | i <= j :: clock(i) <= clock(j)
  }

  /** Walks the heap in any order and keeps the most recent entry of every id. */
  method CollectLatest(heap: multiset<NodeEntry>) returns (found: map<NodeId, NodeEntry>)
    ensures IsLatest(found, heap)
  {
    found := map[];
    var rest := heap;
    while rest != multiset{}
      invariant rest <= heap && IsLatest(found, heap - rest)
      decreases |rest|
    {
      var cur :| cur in rest;
      LatestWithOneMore(found, heap - rest, cur);
      assert heap - (rest - multiset{cur}) == (heap - rest) + multiset{cur};
      if cur.node.id in found {
        if cur.seen > found[cur.node.id].seen {
          found := found[cur.node.id := cur];
        }
      } else {
        found := found[cur.node.id := cur];
      }
      rest := rest - multiset{cur};
    }
    assert heap - rest == heap;
  }

  /** r lists the entries of latest, each id once. */
  ghost predicate Lists(r: seq<NodeEntry>, latest: map<NodeId, NodeEntry>) {
    && |r| == |latest|
    && (forall e :: e in r <==> e.node.id in latest && latest[e.node.id] == e)
    && (forall i, j | 0 <= i < j < |r| :: r[i].node.id != r[j].node.id)
  }

  /** r is an answer of `nodes()`: the entries of some latest-per-id map of the heap. */
  ghost predicate IsAnswer(r: seq<NodeEntry>, heap: multiset<NodeEntry>) {
    exists latest :: IsLatest(latest, heap) && Lists(r, latest)
  }

  /** The values of a map as a sequence in some order. */
  method Values(m: map<NodeId, NodeEntry>) returns (r: seq<NodeEntry>)
    requires forall id <- m :: m[id].node.id == id
    ensures Lists(r, m)
  {
    r := [];
    var rest := m.Items;
    while rest != {}
      invariant rest <= m.Items && |r| + |rest| == |m|
      invariant forall e :: e in r <==> (e.node.id, e) in m.Items && (e.node.id, e) !in rest
      invariant forall i, j | 0 <= i < j < |r| :: r[i].node.id != r[j].node.id
      decreases |rest|
    {
      var item :| item in rest;
      assert item.1.node.id == item.0 && item.1 !in r;
      r := r + [item.1];
      rest := rest - {item};
    }
  }

  class Registry {
    const ttl: nat
    var nodes: multiset<NodeEntry>

    constructor (ttl: nat)
      ensures this.ttl == ttl && nodes == multiset{}
    {
      this.ttl := ttl;
      nodes := multiset{};
    }

    method Add(node: Node, now: Instant)
      modifies this
      ensures nodes == old(nodes) + multiset{NodeEntry(node, now)}
    {
      nodes := nodes + multiset{NodeEntry(node, now)};
    }

    /** One entry per id, in any order. */
    method Nodes() returns (r: seq<NodeEntry>)
      ensures IsAnswer(r, nodes)
    {
      var found := CollectLatest(nodes);
      assert forall id <- found :: found[id] in nodes;
      r := Values(found);
    }

    /** Pops expired entries off the top.  The clock is read anew before every test; `readings`
        counts the readings and `cutoff` is the last one less the TTL. */
    method Purge(clock: nat -> Instant) returns (ghost readings: nat, ghost cutoff: Instant)
      requires ClockAdvances(clock)
      modifies this
      ensures IsUnexpired(nodes, old(nodes), cutoff)
      ensures readings > 0 ==> cutoff == clock(readings - 1) - ttl
      ensures readings == 0 ==> nodes == old(nodes) == multiset{}
    {
      var k := 0;
      ghost var popped: multiset<NodeEntry> := multiset{};
      readings, cutoff := 0, clock(0) - ttl;
      while nodes != multiset{}
        invariant readings == k && (k > 0 ==> cutoff == clock(k - 1) - ttl) && (k == 0 ==> nodes == old(nodes))
        invariant old(nodes) == nodes + popped
        invariant forall e <- popped :: e.seen <= cutoff
        invariant cutoff <= clock(k) - ttl
        decreases |nodes|
      {
        TopExists(nodes);
        var entry :| IsTop(entry, nodes);
        k := k + 1;
        readings, cutoff := k, clock(k - 1) - ttl;
        if entry.seen <= clock(k - 1) - ttl {
          nodes := nodes - multiset{entry};
          popped := popped + multiset{entry};
        } else {
          TopBoundsRest(entry, nodes);
          break;
        }
      }
      SplitIsUnexpired(nodes, popped, cutoff);
    }
  }

  // ----- refinement of a plain map

  /** A registration, or a purge whose last clock reading is `at`. */
  datatype Op = Add(node: Node, at: Instant) | Purge(at: Instant)

  /** Entries in order of registration. */
  datatype Entries = Empty | Push(front: Entries, last: NodeEntry)

  function Bag(s: Entries): multiset<NodeEntry> {
    match s
    case Empty => multiset{}
    case Push(front, last) => Bag(front) + multiset{last}
  }

  /** The entries that survive a cut-off, in order. */
  function Keep(s: Entries, cutoff: Instant): Entries {
    match s
    case Empty => Empty
    case Push(front, last) => if last.seen > cutoff then Push(Keep(front, cutoff), last) else Keep(front, cutoff)
  }

  /** The heap's contents after the first n operations, in order of registration. */
  function Held(ops: seq<Op>, n: nat, ttl: nat): Entries
    requires n <= |ops|
  {
    if n == 0 then Empty
    else
      match ops[n - 1]
      case Add(node, at) => Push(Held(ops, n - 1, ttl), NodeEntry(node, at))
      case Purge(at) => Keep(Held(ops, n - 1, ttl), at - ttl)
  }

  /** The ids whose entry survives a cut-off. */
  function Fresher(latest: map<NodeId, NodeEntry>, cutoff: Instant): map<NodeId, NodeEntry> {
    map id <- latest | latest[id].seen > cutoff :: latest[id]
  }

  /** A registry without history: the latest registration per id, dropped when it expires. */
  function Plain(ops: seq<Op>, n: nat, ttl: nat): map<NodeId, NodeEntry>
    requires n <= |ops|
  {
    if n == 0 then map[]
    else
      match ops[n - 1]
      case Add(node, at) => Plain(ops, n - 1, ttl)[node.id := NodeEntry(node, at)]
      case Purge(at) => Fresher(Plain(ops, n - 1, ttl), at - ttl)
  }

  lemma {:induction false} KeepIsUnexpired(s: Entries, cutoff: Instant)
    ensures IsUnexpired(Bag(Keep(s, cutoff)), Bag(s), cutoff)
  {
    match s {
      case Empty =>
      case Push(front, _) => KeepIsUnexpired(front, cutoff);
    }
  }

  lemma KeepMembers(s: Entries, cutoff: Instant, e: NodeEntry)
    ensures e in Bag(Keep(s, cutoff)) <==> e in Bag(s) && e.seen > cutoff
  {
    KeepIsUnexpired(s, cutoff);
    SurvivorWasHeld(Bag(Keep(s, cutoff)), Bag(s), cutoff, e);
  }

  /** The class follows the history: what its methods ensure about the heap is exactly what
      the history predicts. */
  lemma HeapFollowsHistory(ops: seq<Op>, n: nat, ttl: nat, heap: multiset<NodeEntry>, heap': multiset<NodeEntry>)
    requires n < |ops| && heap == Bag(Held(ops, n, ttl))
    requires match ops[n]
             case Add(node, at) => heap' == heap + multiset{NodeEntry(node, at)}
             case Purge(at) => IsUnexpired(heap', heap, at - ttl)
    ensures heap' == Bag(Held(ops, n + 1, ttl))
  {
    if ops[n].Purge? {
      var held, cutoff := Held(ops, n, ttl), ops[n].at - ttl;
      KeepIsUnexpired(held, cutoff);
      SameCounts(heap', Bag(Keep(held, cutoff)), heap, cutoff);
    }
  }

  lemma SameCounts(a: multiset<NodeEntry>, b: multiset<NodeEntry>, before: multiset<NodeEntry>, cutoff: Instant)
    requires IsUnexpired(a, before, cutoff) && IsUnexpired(b, before, cutoff)
    ensures a == b
  {
    forall e: NodeEntry ensures a[e] == b[e] {
    }
  }

  /** Registrations of one id carry strictly increasing times. */
  ghost predicate AddsIncrease(ops: seq<Op>) {
    forall i, j | 0 <= i < j < |ops| && ops[i].Add? && ops[j].Add? && ops[i].node.id == ops[j].node.id ::
        ops[i].at < ops[j].at
  }

  /** Operation i registered an entry and no purge since has reached it. */
  ghost predicate Survives(ops: seq<Op>, n: nat, ttl: nat, i: nat)
    requires i < n <= |ops|
  {
    ops[i].Add? && forall j | i < j < n && ops[j].Purge? :: ops[i].at > ops[j].at - ttl
  }

  ghost predicate HeldFrom(ops: seq<Op>, n: nat, ttl: nat, e: NodeEntry)
    requires n <= |ops|
  {
    exists i :: 0 <= i < n && Survives(ops, n, ttl, i) && e == NodeEntry(ops[i].node, ops[i].at)
  }

  lemma HeldFromStep(ops: seq<Op>, n: nat, ttl: nat, e: NodeEntry)
    requires n < |ops|
    ensures HeldFrom(ops, n + 1, ttl, e) <==>
        || (ops[n].Add? && e == NodeEntry(ops[n].node, ops[n].at))
        || (HeldFrom(ops, n, ttl, e) && (ops[n].Add? || e.seen > ops[n].at - ttl))
  {
    if HeldFrom(ops, n, ttl, e) && (ops[n].Add? || e.seen > ops[n].at - ttl) {
      var i :| 0 <= i < n && Survives(ops, n, ttl, i) && e == NodeEntry(ops[i].node, ops[i].at);
      assert Survives(ops, n + 1, ttl, i);
    }
    if HeldFrom(ops, n + 1, ttl, e) {
      var i :| 0 <= i <= n && Survives(ops, n + 1, ttl, i) && e == NodeEntry(ops[i].node, ops[i].at);
      assert i < n ==> Survives(ops, n, ttl, i);
    }
    if ops[n].Add? {
      assert Survives(ops, n + 1, ttl, n);
    }
  }

  lemma HeldStep(ops: seq<Op>, n: nat, ttl: nat, e: NodeEntry)
    requires n < |ops|
    ensures e in Bag(Held(ops, n + 1, ttl)) <==>
        || (ops[n].Add? && e == NodeEntry(ops[n].node, ops[n].at))
        || (e in Bag(Held(ops, n, ttl)) && (ops[n].Add? || e.seen > ops[n].at - ttl))
  {
    if ops[n].Purge? {
      KeepMembers(Held(ops, n, ttl), ops[n].at - ttl, e);
    }
  }

  /** An entry is held exactly if it was registered and no later purge reached it. */
  lemma {:induction false} HeldIffSurvives(ops: seq<Op>, n: nat, ttl: nat, e: NodeEntry)
    requires n <= |ops|
    ensures e in Bag(Held(ops, n, ttl)) <==> HeldFrom(ops, n, ttl, e)
  {
    if n > 0 {
      HeldIffSurvives(ops, n - 1, ttl, e);
      HeldFromStep(ops, n - 1, ttl, e);
      HeldStep(ops, n - 1, ttl, e);
    }
  }

  lemma LatestAfterPurge(latest: map<NodeId, NodeEntry>, before: multiset<NodeEntry>, after: multiset<NodeEntry>,
                         cutoff: Instant)
    requires IsLatest(latest, before) && IsUnexpired(after, before, cutoff)
    ensures IsLatest(Fresher(latest, cutoff), after)
  {
    forall e | e in after ensures e in before && e.seen > cutoff {
      assert after[e] > 0;
    }
    forall id | id in latest && latest[id].seen > cutoff ensures latest[id] in after {
      assert after[latest[id]] == before[latest[id]];
    }
  }

  /** Every entry of the id is older than `at`. */
  ghost predicate Supersedes(id: NodeId, at: Instant, heap: multiset<NodeEntry>) {
    forall f <- heap | f.node.id == id :: f.seen < at
  }

  lemma LatestAfterAdd(latest: map<NodeId, NodeEntry>, before: multiset<NodeEntry>, e: NodeEntry)
    requires IsLatest(latest, before) && Supersedes(e.node.id, e.seen, before)
    ensures IsLatest(latest[e.node.id := e], before + multiset{e})
  {
    assert e.node.id in latest ==> latest[e.node.id] in before;
    LatestWithOneMore(latest, before, e);
  }

  lemma LatestAfterKeep(latest: map<NodeId, NodeEntry>, held: Entries, cutoff: Instant)
    requires IsLatest(latest, Bag(held))
    ensures IsLatest(Fresher(latest, cutoff), Bag(Keep(held, cutoff)))
  {
    KeepIsUnexpired(held, cutoff);
    LatestAfterPurge(latest, Bag(held), Bag(Keep(held, cutoff)), cutoff);
  }

  lemma HeldEarlier(ops: seq<Op>, n: nat, ttl: nat)
    requires AddsIncrease(ops) && n < |ops| && ops[n].Add?
    ensures Supersedes(ops[n].node.id, ops[n].at, Bag(Held(ops, n, ttl)))
  {
    forall e: NodeEntry | e in Bag(Held(ops, n, ttl)) && e.node.id == ops[n].node.id ensures e.seen < ops[n].at {
      HeldIffSurvives(ops, n, ttl, e);
    }
  }

  /** The plain map is a correct answer to the latest-per-id query on the heap. */
  lemma {:induction false} PlainIsLatest(ops: seq<Op>, n: nat, ttl: nat)
    requires AddsIncrease(ops) && n <= |ops|
    ensures IsLatest(Plain(ops, n, ttl), Bag(Held(ops, n, ttl)))
  {
    if n > 0 {
      PlainIsLatest(ops, n - 1, ttl);
      PlainStep(ops, n, ttl);
    }
  }

  lemma PlainStep(ops: seq<Op>, n: nat, ttl: nat)
    requires AddsIncrease(ops) && 0 < n <= |ops|
    requires IsLatest(Plain(ops, n - 1, ttl), Bag(Held(ops, n - 1, ttl)))
    ensures IsLatest(Plain(ops, n, ttl), Bag(Held(ops, n, ttl)))
  {
    if ops[n - 1].Add? {
      HeldEarlier(ops, n - 1, ttl);
      PlainStepAdd(ops[n - 1].node, ops[n - 1].at, Plain(ops, n - 1, ttl), Held(ops, n - 1, ttl));
    } else {
      LatestAfterKeep(Plain(ops, n - 1, ttl), Held(ops, n - 1, ttl), ops[n - 1].at - ttl);
    }
  }

  lemma PlainStepAdd(node: Node, at: Instant, latest: map<NodeId, NodeEntry>, held: Entries)
    requires IsLatest(latest, Bag(held)) && Supersedes(node.id, at, Bag(held))
    ensures IsLatest(latest[node.id := NodeEntry(node, at)], Bag(Push(held, NodeEntry(node, at))))
  {
    LatestAfterAdd(latest, Bag(held), NodeEntry(node, at));
  }

  /** Some entry of the same id is more recent. */
  ghost predicate Outdated(e: NodeEntry, heap: multiset<NodeEntry>) {
    exists g <- heap :: g.node.id == e.node.id && g.seen > e.seen
  }

  /** No two different entries of one id are tied for latest. */
  ghost predicate LatestUntied(heap: multiset<NodeEntry>) {
    forall e <- heap, f <- heap | e.node.id == f.node.id && e.seen == f.seen && e != f :: Outdated(e, heap)
  }

  lemma UntiedAnswersAgree(heap: multiset<NodeEntry>, a: map<NodeId, NodeEntry>, b: map<NodeId, NodeEntry>)
    requires LatestUntied(heap) && IsLatest(a, heap) && IsLatest(b, heap)
    ensures a == b
  {
    forall id | id in a ensures id in b && a[id] == b[id] {
      UntiedAnswersAgreeAt(heap, a, b, id);
    }
    forall id | id in b ensures id in a {
      UntiedAnswersAgreeAt(heap, b, a, id);
    }
  }

  lemma UntiedAnswersAgreeAt(heap: multiset<NodeEntry>, a: map<NodeId, NodeEntry>, b: map<NodeId, NodeEntry>,
                             id: NodeId)
    requires LatestUntied(heap) && IsLatest(a, heap) && IsLatest(b, heap) && id in a
    ensures id in b && a[id] == b[id]
  {
    var x := a[id];
    assert x in heap;
    var y := b[id];
    assert y in heap && x.seen == y.seen;
    assert !Outdated(x, heap);
  }

  lemma TiedAnswerDiffers(heap: multiset<NodeEntry>, latest: map<NodeId, NodeEntry>, e: NodeEntry, f: NodeEntry)
    returns (other: map<NodeId, NodeEntry>)
    requires IsLatest(latest, heap) && e in heap && f in heap
    requires e.node.id == f.node.id && e.seen == f.seen && e != f && !Outdated(e, heap)
    ensures IsLatest(other, heap) && other != latest
  {
    var id := e.node.id;
    var tied := if latest[id] == e then f else e;
    assert latest[id].seen == e.seen;
    other := latest[id := tied];
    assert other[id] != latest[id];
  }

  /** The query has only one answer, whatever order the heap is walked in, exactly when no id
      has a tie for latest. */
  lemma AnswerUniqueIffUntied(heap: multiset<NodeEntry>, latest: map<NodeId, NodeEntry>)
    requires IsLatest(latest, heap)
    ensures (forall other | IsLatest(other, heap) :: other == latest) <==> LatestUntied(heap)
  {
    if LatestUntied(heap) {
      forall other | IsLatest(other, heap) ensures other == latest {
        UntiedAnswersAgree(heap, other, latest);
      }
    } else {
      var e, f :| e in heap && f in heap && e.node.id == f.node.id && e.seen == f.seen && e != f && !Outdated(e, heap);
      var other := TiedAnswerDiffers(heap, latest, e, f);
    }
  }

  lemma HeldUntied(ops: seq<Op>, n: nat, ttl: nat)
    requires AddsIncrease(ops) && n <= |ops|
    ensures LatestUntied(Bag(Held(ops, n, ttl)))
  {
    forall e, f | e in Bag(Held(ops, n, ttl)) && f in Bag(Held(ops, n, ttl))
                  && e.node.id == f.node.id && e.seen == f.seen
      ensures e == f
    {
      RegisteredOnceAt(ops, n, ttl, e, f);
    }
  }

  lemma RegisteredOnceAt(ops: seq<Op>, n: nat, ttl: nat, e: NodeEntry, f: NodeEntry)
    requires AddsIncrease(ops) && n <= |ops|
    requires e in Bag(Held(ops, n, ttl)) && f in Bag(Held(ops, n, ttl)) && e.node.id == f.node.id && e.seen == f.seen
    ensures e == f
  {
    HeldIffSurvives(ops, n, ttl, e);
    HeldIffSurvives(ops, n, ttl, f);
  }

  /** Refinement: with strictly increasing registration times of each id, the possible answers of
      `nodes()` are exactly the listings of the plain map, one entry per id. */
  lemma NodesIsPlainMap(ops: seq<Op>, ttl: nat, r: seq<NodeEntry>)
    requires AddsIncrease(ops)
    ensures IsAnswer(r, Bag(Held(ops, |ops|, ttl))) <==> Lists(r, Plain(ops, |ops|, ttl))
  {
    PlainIsLatest(ops, |ops|, ttl);
    HeldUntied(ops, |ops|, ttl);
    AnswerUniqueIffUntied(Bag(Held(ops, |ops|, ttl)), Plain(ops, |ops|, ttl));
  }

  /** A purge never lets the number of reported nodes grow, so the purged count, a subtraction
      of unsigned numbers, cannot underflow. */
  lemma PurgedCountNeverNegative(before: multiset<NodeEntry>, after: multiset<NodeEntry>, cutoff: Instant,
                                 latestBefore: map<NodeId, NodeEntry>, latestAfter: map<NodeId, NodeEntry>)
    requires IsUnexpired(after, before, cutoff) && IsLatest(latestBefore, before) && IsLatest(latestAfter, after)
    ensures latestAfter.Keys <= latestBefore.Keys && |latestAfter| <= |latestBefore|
    ensures forall id <- latestBefore :: id in latestAfter <==> latestBefore[id].seen > cutoff
  {
    var kept := set id <- latestBefore | latestBefore[id].seen > cutoff;
    forall id | id in latestAfter ensures id in kept {
      SurvivorWasHeld(after, before, cutoff, latestAfter[id]);
    }
    forall id | id in kept ensures id in latestAfter {
      SurvivorWasHeld(after, before, cutoff, latestBefore[id]);
    }
    assert latestAfter.Keys == kept;
    SubsetSmaller(latestAfter.Keys, latestBefore.Keys);
  }

  lemma SurvivorWasHeld(after: multiset<NodeEntry>, before: multiset<NodeEntry>, cutoff: Instant, e: NodeEntry)
    requires IsUnexpired(after, before, cutoff)
    ensures e in after <==> e in before && e.seen > cutoff
  {
    assert after[e] == if e.seen > cutoff then before[e] else 0;
  }

  // ----- timing and capacity of the service

  const TTL: nat := 60_000
  const HEARTBEAT: nat := 10_000
  const PURGE_PERIOD: nat := 30_000

  /** What has happened by the moment `now`, in time order, at least one purge of it within the
      last period. */
  ghost predicate Served(ops: seq<Op>, now: Instant) {
    && (forall i, j | 0 <= i <= j < |ops| :: ops[i].at <= ops[j].at)
    && (forall i | 0 <= i < |ops| :: ops[i].at <= now)
    && exists p <- ops :: p.Purge? && now - PURGE_PERIOD <= p.at
  }

  predicate Beats(op: Op, id: NodeId) { op.Add? && op.node.id == id }

  /** Heartbeats of one node are at least 10 s apart. */
  ghost predicate BeatsApart(ops: seq<Op>, id: NodeId) {
    forall i, j | 0 <= i < j < |ops| && Beats(ops[i], id) && Beats(ops[j], id) :: ops[j].at - ops[i].at >= HEARTBEAT
  }

  /** These assumptions can be met: for instance by a purge at the start and after 30 s, with a
      heartbeat after each. */
  lemma AssumptionsCanBeMet(node: Node)
    ensures var ops := [Purge(0), Add(node, 10_000), Purge(30_000), Add(node, 30_001)];
      Served(ops, 60_000) && AddsIncrease(ops) && BeatsApart(ops, node.id)
  {
    var ops := [Purge(0), Add(node, 10_000), Purge(30_000), Add(node, 30_001)];
    assert ops[2] in ops;
  }

  function OfId(s: Entries, id: NodeId): Entries {
    match s
    case Empty => Empty
    case Push(front, last) => if last.node.id == id then Push(OfId(front, id), last) else OfId(front, id)
  }

  function Size(s: Entries): nat {
    match s
    case Empty => 0
    case Push(front, _) => Size(front) + 1
  }

  lemma {:induction false} OfIdMembers(s: Entries, id: NodeId, e: NodeEntry)
    ensures e in Bag(OfId(s, id)) <==> e in Bag(s) && e.node.id == id
  {
    match s {
      case Empty =>
      case Push(front, _) => OfIdMembers(front, id, e);
    }
  }

  lemma {:induction false} OfIdKeep(s: Entries, id: NodeId, cutoff: Instant)
    ensures OfId(Keep(s, cutoff), id) == Keep(OfId(s, id), cutoff)
  {
    match s {
      case Empty =>
      case Push(front, _) => OfIdKeep(front, id, cutoff);
    }
  }

  /** Successive entries are at least one heartbeat apart. */
  ghost predicate Apart(s: Entries) {
    match s
    case Empty => true
    case Push(front, last) => Apart(front) && forall e <- Bag(front) :: last.seen - e.seen >= HEARTBEAT
  }

  lemma {:induction false} KeepApart(s: Entries, cutoff: Instant)
    requires Apart(s)
    ensures Apart(Keep(s, cutoff))
  {
    match s {
      case Empty =>
      case Push(front, last) =>
        KeepApart(front, cutoff);
        forall e | e in Bag(Keep(front, cutoff)) ensures last.seen - e.seen >= HEARTBEAT {
          KeepMembers(front, cutoff, e);
        }
    }
  }

  lemma HeldBeatsEarlier(ops: seq<Op>, n: nat, id: NodeId)
    requires BeatsApart(ops, id) && n < |ops| && Beats(ops[n], id)
    ensures forall e <- Bag(OfId(Held(ops, n, TTL), id)) :: ops[n].at - e.seen >= HEARTBEAT
  {
    forall e | e in Bag(OfId(Held(ops, n, TTL), id)) ensures ops[n].at - e.seen >= HEARTBEAT {
      OfIdMembers(Held(ops, n, TTL), id, e);
      HeldIffSurvives(ops, n, TTL, e);
    }
  }

  lemma {:induction false} HeldApart(ops: seq<Op>, n: nat, id: NodeId)
    requires BeatsApart(ops, id) && n <= |ops|
    ensures Apart(OfId(Held(ops, n, TTL), id))
  {
    if n > 0 {
      HeldApart(ops, n - 1, id);
      var held := Held(ops, n - 1, TTL);
      match ops[n - 1] {
        case Add(node, at) =>
          if node.id == id {
            HeldBeatsEarlier(ops, n - 1, id);
          }
        case Purge(at) =>
          OfIdKeep(held, id, at - TTL);
          KeepApart(OfId(held, id), at - TTL);
      }
    }
  }

  /** Entries a heartbeat apart within a window are as many as fit. */
  lemma {:induction false} ApartFits(s: Entries, low: Instant, high: Instant)
    requires Apart(s) && s != Empty
    requires forall e <- Bag(s) :: low < e.seen <= high
    ensures (Size(s) - 1) * HEARTBEAT < high - low
  {
    assert s.last in Bag(s);
    if s.front != Empty {
      ApartFits(s.front, low, s.last.seen - HEARTBEAT);
    }
  }

  /** Everything held is at most the TTL and one purge period old. */
  lemma HeldWithinWindow(ops: seq<Op>, now: Instant, e: NodeEntry)
    requires Served(ops, now) && e in Bag(Held(ops, |ops|, TTL))
    ensures now - TTL - PURGE_PERIOD < e.seen <= now
  {
    HeldIffSurvives(ops, |ops|, TTL, e);
    assert HeldFrom(ops, |ops|, TTL, e);
    var i :| 0 <= i < |ops| && Survives(ops, |ops|, TTL, i) && e == NodeEntry(ops[i].node, ops[i].at);
    var p :| p in ops && p.Purge? && now - PURGE_PERIOD <= p.at;
    var j :| 0 <= j < |ops| && ops[j] == p;
    if j <= i {
      assert ops[j].at <= ops[i].at;
    }
  }

  /** With heartbeats at least 10 s apart, a TTL of 60 s and a purge every 30 s, the heap never
      holds more than nine entries of one node. */
  lemma AtMostNineEntries(ops: seq<Op>, now: Instant, id: NodeId)
    requires Served(ops, now) && BeatsApart(ops, id)
    ensures Size(OfId(Held(ops, |ops|, TTL), id)) <= 9
  {
    var s := OfId(Held(ops, |ops|, TTL), id);
    if s != Empty {
      HeldApart(ops, |ops|, id);
      forall e | e in Bag(s) ensures now - TTL - PURGE_PERIOD < e.seen <= now {
        OfIdMembers(Held(ops, |ops|, TTL), id, e);
        HeldWithinWindow(ops, now, e);
      }
      ApartFits(s, now - TTL - PURGE_PERIOD, now);
    }
  }

  /** The answer r lists the id. */
  ghost predicate Reports(r: seq<NodeEntry>, id: NodeId) {
    exists e :: e in r && e.node.id == id
  }

  lemma ReportedIffHeld(r: seq<NodeEntry>, heap: multiset<NodeEntry>, id: NodeId)
    requires IsAnswer(r, heap)
    ensures Reports(r, id) <==> exists e :: e in heap && e.node.id == id
  {
    var latest :| IsLatest(latest, heap) && Lists(r, latest);
    if id in latest {
      assert latest[id] in heap && latest[id] in r;
    }
  }

  /** A node that has beaten within the TTL is in every possible answer. */
  lemma BeatingNodeIsReported(ops: seq<Op>, now: Instant, id: NodeId, i: nat, r: seq<NodeEntry>)
    requires (forall j | 0 <= j < |ops| :: ops[j].at <= now) && IsAnswer(r, Bag(Held(ops, |ops|, TTL)))
    requires i < |ops| && Beats(ops[i], id) && now < ops[i].at + 60_000
    ensures Reports(r, id)
  {
    assert Survives(ops, |ops|, TTL, i);
    HeldIffSurvives(ops, |ops|, TTL, NodeEntry(ops[i].node, ops[i].at));
    ReportedIffHeld(r, Bag(Held(ops, |ops|, TTL)), id);
  }

  /** A node silent for the TTL and one purge period, 90 s, is in none. */
  lemma SilentNodeDisappears(ops: seq<Op>, now: Instant, id: NodeId, last: Instant, r: seq<NodeEntry>)
    requires Served(ops, now) && IsAnswer(r, Bag(Held(ops, |ops|, TTL)))
    requires forall i | 0 <= i < |ops| && Beats(ops[i], id) :: ops[i].at <= last
    requires now >= last + 90_000
    ensures !Reports(r, id)
  {
    ReportedIffHeld(r, Bag(Held(ops, |ops|, TTL)), id);
    forall e | e in Bag(Held(ops, |ops|, TTL)) && e.node.id == id ensures false {
      HeldWithinWindow(ops, now, e);
      HeldIffSurvives(ops, |ops|, TTL, e);
    }
  }
}
