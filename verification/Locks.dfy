/** The lock discipline of one node: its tasks share five mutexes that are not reentrant
    (crates/node/src/node.rs, spawned in apps/node/src/main.rs). */
module Locks {

  datatype Lock = PeerDb | SessionDb | PingDb | LinkStateDb | LsaSequence

  datatype Op = Acquire(lock: Lock) | Release(lock: Lock)

  /** The one order in which locks are nested. */
  function Rank(l: Lock): nat {
    match l
    case PeerDb => 0
    case SessionDb => 1
    case PingDb => 2
    case LinkStateDb => 3
    case LsaSequence => 4
  }

  /** The rest of the body a task is running, and the locks it holds. */
  datatype Task = Task(todo: seq<Op>, held: set<Lock>)

  type State = seq<Task>

  // ----- stepping

  predicate Free(s: State, l: Lock) {
    forall t <- s :: l !in t.held
  }

  /** Task i can execute its next operation.  A lock held by the task itself blocks it too. */
  predicate CanStep(s: State, i: nat)
    requires i < |s|
  {
    s[i].todo != [] && (s[i].todo[0].Acquire? ==> Free(s, s[i].todo[0].lock))
  }

  function Stepped(t: Task): Task
    requires t.todo != []
  {
    match t.todo[0]
    case Acquire(l) => Task(t.todo[1..], t.held + {l})
    case Release(l) => Task(t.todo[1..], t.held - {l})
  }

  /** One task starts a body of the menu or executes one operation. */
  ghost predicate Step(menu: set<seq<Op>>, s: State, s': State, i: nat) {
    && i < |s|
    && if s[i].todo == [] then exists b <- menu :: s' == s[i := Task(b, s[i].held)]
       else CanStep(s, i) && s' == s[i := Stepped(s[i])]
  }

  ghost predicate Idle(s: State) {
    forall t <- s :: t == Task([], {})
  }

  /** run is a sequence of states, each one step after the other. */
  ghost predicate IsRun(menu: set<seq<Op>>, run: seq<State>) {
    run != [] && forall k | 0 <= k < |run| - 1 :: SomeStep(menu, run[k], run[k + 1])
  }

  ghost predicate SomeStep(menu: set<seq<Op>>, s: State, s': State) {
    exists i :: Step(menu, s, s', i)
  }

  // ----- the discipline

  /** From here on, with these locks held, every lock acquired ranks above all held ones, only
      held locks are released, and nothing is held at the end. */
  predicate Ordered(todo: seq<Op>, held: set<Lock>) {
    if todo == [] then held == {}
    else
      match todo[0]
      case Acquire(l) => (forall k <- held :: Rank(k) < Rank(l)) && Ordered(todo[1..], held + {l})
      case Release(l) => l in held && Ordered(todo[1..], held - {l})
  }

  ghost predicate Disciplined(s: State) {
    && (forall t <- s :: Ordered(t.todo, t.held))
    && (forall i, j | 0 <= i < j < |s| :: s[i].held !! s[j].held)
  }

  lemma DisciplineStep(menu: set<seq<Op>>, s: State, s': State, i: nat)
    requires (forall b <- menu :: Ordered(b, {})) && Disciplined(s) && Step(menu, s, s', i)
    ensures Disciplined(s')
  {
    assert s[i] in s && Ordered(s[i].todo, s[i].held);
    forall j | 0 <= j < |s'| ensures Ordered(s'[j].todo, s'[j].held) {
      assert s[j] in s;
    }
    forall j, k | 0 <= j < k < |s'| ensures s'[j].held !! s'[k].held {
      assert s[j] in s && s[k] in s;
    }
  }

  lemma {:induction false} DisciplineRun(menu: set<seq<Op>>, run: seq<State>)
    requires (forall b <- menu :: Ordered(b, {})) && IsRun(menu, run) && Disciplined(run[0])
    ensures Disciplined(run[|run| - 1])
    decreases |run|
  {
    if |run| > 1 {
      var n := |run|;
      DisciplineRun(menu, run[..n - 1]);
      assert SomeStep(menu, run[n - 2], run[n - 2 + 1]);
      var i :| Step(menu, run[n - 2], run[n - 1], i);
      DisciplineStep(menu, run[n - 2], run[n - 1], i);
    }
  }

  /** Follow the chain of waiting from task i: each holder waits for a lock of higher rank, so
      the chain ends at a task that can step. */
  lemma {:induction false} SomeoneCanStep(s: State, i: nat) returns (j: nat)
    requires Disciplined(s) && i < |s| && s[i].todo != []
    ensures j < |s| && CanStep(s, j)
    decreases if s[i].todo[0].Acquire? then 5 - Rank(s[i].todo[0].lock) else 0
  {
    if CanStep(s, i) {
      j := i;
    } else {
      var l := s[i].todo[0].lock;
      var k :| 0 <= k < |s| && l in s[k].held;
      assert s[k] in s && Ordered(s[k].todo, s[k].held);
      assert s[i] in s && Ordered(s[i].todo, s[i].held);
      if CanStep(s, k) {
        j := k;
      } else {
        j := SomeoneCanStep(s, k);
      }
    }
  }

  /** If every body keeps to the order, then in every state reachable from idle tasks, whatever
      the interleaving: if any task is in the middle of a body, some task in the middle of a
      body can execute its next operation. */
  lemma OrderedBodiesNeverDeadlock(menu: set<seq<Op>>, run: seq<State>)
    requires (forall b <- menu :: Ordered(b, {})) && IsRun(menu, run) && Idle(run[0])
    ensures var s := run[|run| - 1];
      (exists i :: 0 <= i < |s| && s[i].todo != []) ==> exists j :: 0 <= j < |s| && s[j].todo != [] && CanStep(s, j)
  {
    DisciplineRun(menu, run);
    var s := run[|run| - 1];
    if i :| 0 <= i < |s| && s[i].todo != [] {
      var j := SomeoneCanStep(s, i);
    }
  }

  /** Operations still to be executed by all tasks together. */
  ghost function Pending(s: State): nat {
    if s == [] then 0 else |s[0].todo| + Pending(s[1..])
  }

  lemma {:induction false} SteppingLowersPending(s: State, i: nat)
    requires i < |s| && s[i].todo != []
    ensures Pending(s[i := Stepped(s[i])]) < Pending(s)
  {
    var s' := s[i := Stepped(s[i])];
    if i == 0 {
      assert s'[1..] == s[1..];
    } else {
      assert s'[1..] == s[1..][i - 1 := Stepped(s[i])];
      SteppingLowersPending(s[1..], i - 1);
    }
  }

  /** Not even some of the tasks can block each other for good: from every disciplined state
      there is a continuation in which every task finishes its body and every lock is free. */
  lemma {:induction false} Drains(menu: set<seq<Op>>, s: State) returns (run: seq<State>)
    requires (forall b <- menu :: Ordered(b, {})) && Disciplined(s)
    ensures IsRun(menu, run) && run[0] == s && Idle(run[|run| - 1]) && |run[|run| - 1]| == |s|
    decreases Pending(s)
  {
    if i :| 0 <= i < |s| && s[i].todo != [] {
      var j := SomeoneCanStep(s, i);
      var s1 := s[j := Stepped(s[j])];
      assert Step(menu, s, s1, j);
      assert SomeStep(menu, s, s1);
      DisciplineStep(menu, s, s1, j);
      SteppingLowersPending(s, j);
      var rest := Drains(menu, s1);
      run := [s] + rest;
    } else {
      forall t | t in s ensures t == Task([], {}) {
        assert Ordered(t.todo, t.held);
      }
      run := [s];
    }
  }

  // ----- the bodies of the source

  function Section(l: Lock): seq<Op> { [Acquire(l), Release(l)] }

  /** `get_neighbor_addresses`, `update_metrics` and the peer selection of `ping_peers`. */
  const NEIGHBORS: seq<Op> := [Acquire(PeerDb), Acquire(SessionDb), Release(SessionDb), Release(PeerDb)]

  /** `broadcast_lsa`. */
  const BROADCAST: seq<Op> := Section(LsaSequence) + Section(SessionDb) + Section(LinkStateDb) + NEIGHBORS

  /** `receive`, Hello: known session, or `handle_hello`. */
  function HelloBody(known: bool): seq<Op> {
    Section(SessionDb) + if known then Section(PeerDb) else Section(SessionDb)
  }

  /** `handle_handshake` with the broadcast after the guard is released. */
  function HandshakeBody(completes: bool): seq<Op> {
    Section(SessionDb) + if completes then BROADCAST else []
  }

  /** `handle_handshake` as written: the session guard lives to the end of the function. */
  function HandshakeBodyWritten(completes: bool): seq<Op> {
    [Acquire(SessionDb)] + (if completes then BROADCAST else []) + [Release(SessionDb)]
  }

  /** `remove_stale_peers` with the broadcast after the guards are released. */
  function StaleBody(found: bool): seq<Op> {
    Section(PeerDb) + if found then NEIGHBORS + BROADCAST else []
  }

  /** `remove_stale_peers` as written: both guards live to the end of the function. */
  function StaleBodyWritten(found: bool): seq<Op> {
    Section(PeerDb)
    + if found then [Acquire(PeerDb), Acquire(SessionDb)] + BROADCAST + [Release(SessionDb), Release(PeerDb)] else []
  }

  /** `handle_ping`: the peer guard of `can_take_ping` may or may not outlive the session test. */
  function PingBody(takes: bool, nested: bool): seq<Op> {
    (if nested then NEIGHBORS else Section(PeerDb) + Section(SessionDb)) + if takes then Section(PeerDb) else []
  }

  /** `handle_pong`: how far `can_take_pong` gets, and whether the peer is still there. */
  function PongBody(known: bool, secure: bool, outstanding: bool, present: bool): seq<Op> {
    if !known then Section(PeerDb)
    else if !secure then Section(PeerDb) + Section(SessionDb)
    else if !outstanding then Section(PeerDb) + Section(SessionDb) + Section(PingDb)
    else Section(PeerDb) + Section(SessionDb) + Section(PingDb)
         + (if present then [Acquire(PeerDb), Acquire(PingDb), Release(PingDb), Release(PeerDb)] else Section(PeerDb))
  }

  /** `handle_lsa`. */
  function LsaBody(floods: bool): seq<Op> {
    Section(LinkStateDb) + if floods then NEIGHBORS else []
  }

  /** One round of `ping_peers`; the concurrent `send_ping` calls are bodies of their own. */
  const PING_ROUND: seq<Op> := Section(PingDb) + NEIGHBORS

  /** What the receive task runs, broadcasts after the guards are released. */
  const RECEIVE_BODIES: set<seq<Op>> :=
    (set known: bool | true :: HelloBody(known)) + (set completes: bool | true :: HandshakeBody(completes))
    + (set floods: bool | true :: LsaBody(floods)) + (set takes: bool, nested: bool | true :: PingBody(takes, nested))
    + (set k: bool, s: bool, o: bool, p: bool | true :: PongBody(k, s, o, p))

  /** What the timer tasks run. */
  const TIMER_BODIES: set<seq<Op>> :=
    (set found: bool | true :: StaleBody(found)) +
        {PING_ROUND, Section(PingDb), NEIGHBORS, BROADCAST, Section(LinkStateDb)}

  const BODIES: set<seq<Op>> := RECEIVE_BODIES + TIMER_BODIES

  lemma {:induction false} OrderedThen(a: seq<Op>, b: seq<Op>, held: set<Lock>)
    requires Ordered(a, held) && Ordered(b, {})
    ensures Ordered(a + b, held)
    decreases |a|
  {
    if a == [] {
      assert a + b == b;
    } else {
      assert (a + b)[1..] == a[1..] + b;
      OrderedThen(a[1..], b, Stepped(Task(a, held)).held);
    }
  }

  lemma SectionOrdered(l: Lock)
    ensures Ordered(Section(l), {})
  {
    assert Section(l)[1..] == [Release(l)];
    assert [Release(l)][1..] == [];
  }

  /** Two locks nested in the right order. */
  lemma NestedOrdered(outer: Lock, inner: Lock)
    requires Rank(outer) < Rank(inner)
    ensures Ordered([Acquire(outer), Acquire(inner), Release(inner), Release(outer)], {})
  {
    var b0 := [Acquire(outer), Acquire(inner), Release(inner), Release(outer)];
    var b1 := [Acquire(inner), Release(inner), Release(outer)];
    var b2 := [Release(inner), Release(outer)];
    assert {outer} - {outer} == {} && [Release(outer)][1..] == [];
    assert Ordered([Release(outer)], {outer});
    assert {outer, inner} - {inner} == {outer} && b2[1..] == [Release(outer)];
    assert Ordered(b2, {outer, inner});
    assert {outer} + {inner} == {outer, inner} && b1[1..] == b2;
    assert Ordered(b1, {outer});
    assert {} + {outer} == {outer} && b0[1..] == b1;
  }

  lemma SectionThen(l: Lock, b: seq<Op>)
    requires Ordered(b, {})
    ensures Ordered(Section(l) + b, {})
  {
    SectionOrdered(l);
    OrderedThen(Section(l), b, {});
  }

  lemma BroadcastOrdered()
    ensures Ordered(NEIGHBORS, {}) && Ordered(BROADCAST, {})
  {
    NestedOrdered(PeerDb, SessionDb);
    SectionThen(LinkStateDb, NEIGHBORS);
    SectionThen(SessionDb, Section(LinkStateDb) + NEIGHBORS);
    SectionThen(LsaSequence, Section(SessionDb) + (Section(LinkStateDb) + NEIGHBORS));
    assert BROADCAST == Section(LsaSequence) + (Section(SessionDb) + (Section(LinkStateDb) + NEIGHBORS));
  }

  lemma PongOrdered(known: bool, secure: bool, outstanding: bool, present: bool)
    ensures Ordered(PongBody(known, secure, outstanding, present), {})
  {
    forall l ensures Ordered(Section(l), {}) { SectionOrdered(l); }
    NestedOrdered(PeerDb, PingDb);
    var update := if present then [Acquire(PeerDb), Acquire(PingDb), Release(PingDb), Release(PeerDb)]
        else Section(PeerDb);
    SectionThen(PeerDb, Section(SessionDb));
    OrderedThen(Section(PeerDb) + Section(SessionDb), Section(PingDb), {});
    OrderedThen(Section(PeerDb) + Section(SessionDb) + Section(PingDb), update, {});
  }

  lemma HelloOrdered(known: bool)
    ensures Ordered(HelloBody(known), {})
  {
    SectionOrdered(PeerDb);
    SectionOrdered(SessionDb);
    SectionThen(SessionDb, if known then Section(PeerDb) else Section(SessionDb));
  }

  lemma HandshakeOrdered(completes: bool)
    ensures Ordered(HandshakeBody(completes), {})
  {
    BroadcastOrdered();
    SectionThen(SessionDb, if completes then BROADCAST else []);
  }

  lemma LsaOrdered(floods: bool)
    ensures Ordered(LsaBody(floods), {})
  {
    BroadcastOrdered();
    SectionThen(LinkStateDb, if floods then NEIGHBORS else []);
  }

  lemma PingOrdered(takes: bool, nested: bool)
    ensures Ordered(PingBody(takes, nested), {})
  {
    BroadcastOrdered();
    SectionOrdered(PeerDb);
    SectionOrdered(SessionDb);
    SectionThen(PeerDb, Section(SessionDb));
    var test := if nested then NEIGHBORS else Section(PeerDb) + Section(SessionDb);
    OrderedThen(test, if takes then Section(PeerDb) else [], {});
  }

  lemma StaleOrdered(found: bool)
    ensures Ordered(StaleBody(found), {})
  {
    BroadcastOrdered();
    OrderedThen(NEIGHBORS, BROADCAST, {});
    SectionThen(PeerDb, if found then NEIGHBORS + BROADCAST else []);
  }

  lemma ReceiveBodiesOrdered()
    ensures forall b <- RECEIVE_BODIES :: Ordered(b, {})
  {
    forall known ensures Ordered(HelloBody(known), {}) { HelloOrdered(known); }
    forall completes ensures Ordered(HandshakeBody(completes), {}) { HandshakeOrdered(completes); }
    forall floods ensures Ordered(LsaBody(floods), {}) { LsaOrdered(floods); }
    forall takes, nested ensures Ordered(PingBody(takes, nested), {}) { PingOrdered(takes, nested); }
    forall k, s, o, p ensures Ordered(PongBody(k, s, o, p), {}) { PongOrdered(k, s, o, p); }
  }

  lemma TimerBodiesOrdered()
    ensures forall b <- TIMER_BODIES :: Ordered(b, {})
  {
    forall found ensures Ordered(StaleBody(found), {}) { StaleOrdered(found); }
    BroadcastOrdered();
    SectionThen(PingDb, NEIGHBORS);
    SectionOrdered(PingDb);
    SectionOrdered(LinkStateDb);
  }

  /** With broadcasts after the guards are released, every body nests its locks in the one
      order. */
  lemma AllBodiesOrdered()
    ensures forall b <- BODIES :: Ordered(b, {})
  {
    ReceiveBodiesOrdered();
    TimerBodiesOrdered();
  }

  /** Deadlock freedom of the node: in every reachable interleaving of any number of tasks, if
      some task is inside a body then some task inside a body can step, and the state can
      always be continued until every task is done and every lock free. */
  lemma NodeNeverDeadlocks(run: seq<State>) returns (more: seq<State>)
    requires IsRun(BODIES, run) && Idle(run[0])
    ensures var s := run[|run| - 1];
      (exists i :: 0 <= i < |s| && s[i].todo != []) ==> exists j :: 0 <= j < |s| && s[j].todo != [] && CanStep(s, j)
    ensures IsRun(BODIES, more) && more[0] == run[|run| - 1] && Idle(more[|more| - 1])
  {
    AllBodiesOrdered();
    OrderedBodiesNeverDeadlock(BODIES, run);
    DisciplineRun(BODIES, run);
    more := Drains(BODIES, run[|run| - 1]);
  }

  // ----- the bodies as written

  /** Task i waits for a lock it holds itself. */
  ghost predicate Wedged(s: State, i: nat) {
    i < |s| && s[i].todo != [] && s[i].todo[0].Acquire? && s[i].todo[0].lock in s[i].held
  }

  /** A wedged task never moves again and keeps its lock, so nobody else ever gets that lock. */
  lemma {:induction false} WedgedForever(menu: set<seq<Op>>, run: seq<State>, i: nat)
    requires IsRun(menu, run) && Wedged(run[0], i)
    ensures var s := run[|run| - 1];
      && Wedged(s, i) && s[i] == run[0][i] && |s| == |run[0]|
      && forall j | 0 <= j < |s| && s[j].todo != [] && s[j].todo[0] == Acquire(s[i].todo[0].lock) :: !CanStep(s, j)
    decreases |run|
  {
    var n := |run|;
    if n > 1 {
      WedgedForever(menu, run[..n - 1], i);
      assert SomeStep(menu, run[n - 2], run[n - 2 + 1]);
      var k :| Step(menu, run[n - 2], run[n - 1], k);
      assert run[n - 2][i] in run[n - 2];
    }
    var s := run[n - 1];
    assert s[i] in s;
  }

  /** From here on the task would at some point acquire a lock it already holds. */
  predicate Reacquires(t: Task)
    decreases |t.todo|
  {
    t.todo != [] && ((t.todo[0].Acquire? && t.todo[0].lock in t.held) || Reacquires(Stepped(t)))
  }

  /** A task that is alone with its locks runs until it is done or waits for itself. */
  lemma {:induction false} RunsAlone(menu: set<seq<Op>>, s: State, i: nat) returns (run: seq<State>)
    requires i < |s| && forall j | 0 <= j < |s| && j != i :: s[j].held == {}
    ensures IsRun(menu, run) && run[0] == s
    ensures var s' := run[|run| - 1];
      && |s'| == |s| && (forall j | 0 <= j < |s| && j != i :: s'[j] == s[j])
      && if Reacquires(s[i]) then Wedged(s', i) else s'[i].todo == []
    decreases |s[i].todo|
  {
    if s[i].todo == [] || Wedged(s, i) {
      run := [s];
    } else {
      var s1 := s[i := Stepped(s[i])];
      assert CanStep(s, i);
      assert Step(menu, s, s1, i);
      assert SomeStep(menu, s, s1);
      var rest := RunsAlone(menu, s1, i);
      run := [s] + rest;
    }
  }

  /** A body that any menu offers can wedge the node, starting from idle tasks, exactly when it
      acquires a lock it already holds; otherwise it finishes when it runs alone. */
  lemma BodyAloneWedgesIffReacquires(menu: set<seq<Op>>, b: seq<Op>, s: State, i: nat) returns (run: seq<State>)
    requires b in menu && Idle(s) && i < |s|
    ensures IsRun(menu, run) && run[0] == s
    ensures var s' := run[|run| - 1];
      |s'| == |s| && if Reacquires(Task(b, {})) then Wedged(s', i) else s'[i].todo == []
  {
    assert forall j | 0 <= j < |s| :: s[j] in s;
    var s1 := s[i := Task(b, {})];
    assert Step(menu, s, s1, i);
    assert SomeStep(menu, s, s1);
    var rest := RunsAlone(menu, s1, i);
    run := [s] + rest;
  }

  lemma {:induction false} OrderedNeverReacquires(t: Task)
    requires Ordered(t.todo, t.held)
    ensures !Reacquires(t)
    decreases |t.todo|
  {
    if t.todo != [] {
      OrderedNeverReacquires(Stepped(t));
    }
  }

  /** As written, `handle_handshake` waits for its own session guard exactly when the message
      completes the handshake, and `remove_stale_peers` exactly when it found a stale peer;
      in the other cases both keep to the order. */
  lemma WrittenBodiesReacquire(happens: bool)
    ensures Reacquires(Task(HandshakeBodyWritten(happens), {})) <==> happens
    ensures Reacquires(Task(StaleBodyWritten(happens), {})) <==> happens
    ensures !happens ==> Ordered(HandshakeBodyWritten(false), {}) && Ordered(StaleBodyWritten(false), {})
  {
    if happens {
      var h := HandshakeBodyWritten(true);
      assert h[1..] == BROADCAST + [Release(SessionDb)];
      ReacquiresInBroadcast([Release(SessionDb)], {SessionDb});
      assert Reacquires(Stepped(Task(h, {}))) by { assert {} + {SessionDb} == {SessionDb}; }
      StaleWrittenReacquires();
    } else {
      assert HandshakeBodyWritten(false) == Section(SessionDb);
      assert StaleBodyWritten(false) == Section(PeerDb);
      SectionOrdered(SessionDb);
      SectionOrdered(PeerDb);
      OrderedNeverReacquires(Task(Section(SessionDb), {}));
      OrderedNeverReacquires(Task(Section(PeerDb), {}));
    }
  }

  /** So a node that runs either body as written can deadlock on itself: from idle tasks, one
      completed handshake or one stale peer is enough. */
  lemma WrittenFormWedges(menu: set<seq<Op>>, written: seq<Op>, s: State, i: nat) returns (run: seq<State>)
    requires written == HandshakeBodyWritten(true) || written == StaleBodyWritten(true)
    requires written in menu && Idle(s) && i < |s|
    ensures IsRun(menu, run) && run[0] == s && Wedged(run[|run| - 1], i)
  {
    WrittenBodiesReacquire(true);
    run := BodyAloneWedgesIffReacquires(menu, written, s, i);
  }

  /** A broadcast run while the session lock is held waits for it after the sequence number. */
  lemma ReacquiresInBroadcast(rest: seq<Op>, held: set<Lock>)
    requires SessionDb in held && LsaSequence !in held
    ensures Reacquires(Task(BROADCAST + rest, held))
  {
    var t0 := Task(BROADCAST + rest, held);
    var t1, t2 := Stepped(t0), Stepped(Stepped(t0));
    assert t0.todo[0] == BROADCAST[0] && t0.todo[1] == BROADCAST[1] && t0.todo[2] == BROADCAST[2];
    assert t0.todo[0] == Acquire(LsaSequence) && t1.todo[0] == Release(LsaSequence) && t2.todo[0] == Acquire(SessionDb);
    assert SessionDb in t2.held;
    assert Reacquires(t2);
    assert Reacquires(t1);
  }

  lemma StaleWrittenReacquires()
    ensures Reacquires(Task(StaleBodyWritten(true), {}))
  {
    var t0 := Task(StaleBodyWritten(true), {});
    var t1 := Stepped(t0);
    var t2 := Stepped(t1);
    var t3 := Stepped(t2);
    var t4 := Stepped(t3);
    assert t4.todo == BROADCAST + [Release(SessionDb), Release(PeerDb)];
    ReacquiresInBroadcast([Release(SessionDb), Release(PeerDb)], t4.held);
    assert Reacquires(t4);
    assert Reacquires(t3);
    assert Reacquires(t2);
    assert Reacquires(t1);
  }
}
