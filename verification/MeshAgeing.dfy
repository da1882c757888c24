/** The ageing results of module Ageing on runs of the mesh.  What a node stores is exactly what its
    own receptions, stores and clean-ups, in their order, leave; and what is received and stored
    of an origin are the advertisements that origin has drawn in the run. */
module MeshAgeing {
  import opened Ageing
  import opened Common
  import opened LinkState
  import opened Mesh
  import opened MeshLsa
  import opened NodeStates
  import MeshFlood
  import MeshState

  // ----- what a run is to one node

  /** What an event is to the database of node u. */
  function LocalOf(net: Net, ev: Event, u: NodeId): seq<Local> {
    if ev.LsaIn? && ev.q.to == u && ev.q.lsa.origin != u then [Receive(net.now, ev.q.lsa)]
    else if ev.PublishAt? && ev.u == u then [Store(net.now, ev.lsa)]
    else if ev == CleanAt(u) then [Clean(net.now)]
    else []
  }

  /** The local events of u, in order. */
  ghost function Locals(net: Net, evs: seq<Event>, u: NodeId): seq<Local>
    requires Runs(net, evs)
    decreases |evs|
  {
    if evs == [] then []
    else
      LastEvent(net, evs);
      var front := evs[..|evs| - 1];
      Locals(net, front, u) + LocalOf(After(net, front), evs[|evs| - 1], u)
  }

  /** At most one local event applied to a database. */
  function Applied(db: LsaDb, local: seq<Local>): LsaDb {
    if local == [] then db else Apply(db, local[0])
  }

  lemma DbAfterMore(before: seq<Local>, local: seq<Local>)
    requires |local| <= 1
    ensures DbAfter(before + local) == Applied(DbAfter(before), local)
  {
    if local == [] {
      assert before + local == before;
    } else {
      assert (before + local)[..|before|] == before;
    }
  }

  lemma DbAfterReceive(net: Net, net': Net, q: LsaPacket, first: bool, u: NodeId)
    requires q.to in net.sites && q.from in net.sites && ReceiveEffect(net, net', q, first)
    requires u in net.sites && net.sites[u].node.id == u
    ensures u in net'.sites
    ensures net'.sites[u].node.lsas == Applied(net.sites[u].node.lsas, LocalOf(net, LsaIn(q, first), u))
  {
  }

  lemma DbAfterClean(net: Net, v: NodeId, u: NodeId)
    requires v in net.sites && u in net.sites
    ensures u in NextClean(net, v).sites
    ensures NextClean(net, v).sites[u].node.lsas == Applied(net.sites[u].node.lsas, LocalOf(net, CleanAt(v), u))
  {
  }

  lemma DbAfterPublish(net: Net, net': Net, v: NodeId, x: Lsa, u: NodeId)
    requires v in net.sites && net.sites[v].node.id == v && x.origin == v && PublishEffect(net, net', v, x)
    requires u in net.sites
    ensures u in net'.sites
    ensures net'.sites[u].node.lsas == Applied(net.sites[u].node.lsas, LocalOf(net, PublishAt(v, x), u))
  {
  }

  lemma DbAfterQuiet(net: Net, ev: Event, net': Net, u: NodeId)
    requires Enabled(net, ev) && MeshFlood.Quiet(ev) && MeshFlood.LsaEffect(net, ev, net')
    requires MeshState.Coherent(net) && (ev.PublishAt? ==> ev.lsa.origin == ev.u) && u in net.sites
    ensures u in net'.sites && net'.sites[u].node.lsas == Applied(net.sites[u].node.lsas, LocalOf(net, ev, u))
  {
    assert MeshState.CoherentSite(net, u);
    if ev.LsaIn? {
      DbAfterReceive(net, net', ev.q, ev.first, u);
    } else if ev.PublishAt? {
      assert MeshState.CoherentSite(net, ev.u);
      DbAfterPublish(net, net', ev.u, ev.lsa, u);
    } else if !ev.GenerateAt? {
      assert SameLsas(net.sites[u], net'.sites[u]);
    }
  }

  lemma ReachableGrounded(net: Net)
    requires Reachable(net)
    ensures Grounded(net)
  {
    ReachableInv(net);
  }

  lemma DraftsAreOwn(net: Net, ev: Event)
    requires Enabled(net, ev) && DraftsAccounted(net) && ev.PublishAt?
    ensures ev.lsa.origin == ev.u && ev.lsa in net.generated
  {
  }

  /** One event of the run does to the database of u what it is to u. */
  lemma DbAfterEvent(net: Net, ev: Event, u: NodeId)
    requires Reachable(net) && Enabled(net, ev) && u in net.sites
    ensures u in Next(net, ev).sites
    ensures Next(net, ev).sites[u].node.lsas == Applied(net.sites[u].node.lsas, LocalOf(net, ev, u))
  {
    if ev.CleanAt? {
      DbAfterClean(net, ev.u, u);
    } else if !ev.LoseLsa? {
      ReachableGrounded(net);
      MeshFlood.HasLsaEffect(net, ev);
      if ev.PublishAt? {
        DraftsAreOwn(net, ev);
      }
      DbAfterQuiet(net, ev, Next(net, ev), u);
    }
  }

  /** In every run, the database of a node is what merging its receptions, storing its own
      advertisements and removing what was stale leave, in the order in which that happened. */
  lemma {:induction false} DbFollowsLocals(start: Net, evs: seq<Event>, u: NodeId)
    requires Initial(start) && Runs(start, evs) && u in start.sites
    ensures u in After(start, evs).sites && After(start, evs).sites[u].node.lsas == DbAfter(Locals(start, evs, u))
    decreases |evs|
  {
    if evs != [] {
      var front, last := evs[..|evs| - 1], evs[|evs| - 1];
      LastEvent(start, evs);
      DbFollowsLocals(start, front, u);
      DbAfterEvent(After(start, front), last, u);
      DbAfterMore(Locals(start, front, u), LocalOf(After(start, front), last, u));
    }
  }

  // ----- what an origin draws

  function DrawOf(net: Net, ev: Event, o: NodeId): seq<Draw>
    requires Enabled(net, ev)
  {
    if ev == GenerateAt(o) then [Draw(Generate(net.sites[o].node, net.now).1, net.now)] else []
  }

  /** What o has drawn in a run, and when. */
  ghost function Draws(net: Net, evs: seq<Event>, o: NodeId): seq<Draw>
    requires Runs(net, evs)
    decreases |evs|
  {
    if evs == [] then []
    else
      LastEvent(net, evs);
      var front := evs[..|evs| - 1];
      Draws(net, front, o) + DrawOf(After(net, front), evs[|evs| - 1], o)
  }

  ghost predicate DrawnIn(x: Lsa, ds: seq<Draw>) {
    exists k :: 0 <= k < |ds| && ds[k].lsa == x
  }

  /** The list is in order, reaches up to the present, and has everything of o. */
  ghost predicate ListsDraws(net: Net, o: NodeId, ds: seq<Draw>)
    requires o in net.sites
  {
    && Numbered(ds, o)
    && (forall k | 0 <= k < |ds| :: ds[k].at <= net.now && ds[k].lsa.sequence <= net.sites[o].node.lsaSequence)
    && (forall x <- net.generated | x.origin == o :: DrawnIn(x, ds))
  }

  /** o has no new number and no new advertisement. */
  ghost predicate SameDraws(net: Net, net': Net, o: NodeId)
    requires o in net.sites
  {
    && o in net'.sites && net'.sites[o].node.lsaSequence == net.sites[o].node.lsaSequence
    && forall x <- net'.generated | x.origin == o :: x in net.generated
  }

  lemma SameDrawsWhenQuiet(net: Net, ev: Event, net': Net, o: NodeId)
    requires Enabled(net, ev) && MeshFlood.Quiet(ev) && MeshFlood.LsaEffect(net, ev, net')
    requires o in net.sites && ev != GenerateAt(o)
    ensures SameDraws(net, net', o)
  {
    if !ev.GenerateAt? && !ev.PublishAt? && !ev.LsaIn? {
      assert SameLsas(net.sites[o], net'.sites[o]);
    }
  }

  lemma SameDrawsOtherwise(net: Net, ev: Event, o: NodeId)
    requires Reachable(net) && Enabled(net, ev) && o in net.sites && ev != GenerateAt(o)
    ensures SameDraws(net, Next(net, ev), o)
  {
    if !ev.CleanAt? && !ev.LoseLsa? {
      ReachableGrounded(net);
      MeshFlood.HasLsaEffect(net, ev);
      SameDrawsWhenQuiet(net, ev, Next(net, ev), o);
    }
  }

  lemma ListWithOneMore(net: Net, net': Net, o: NodeId, ds: seq<Draw>, x: Lsa)
    requires o in net.sites && ListsDraws(net, o, ds) && GenerateEffect(net, net', o, x)
    requires net'.now == net.now && x.timestamp == net.now / SECOND
    ensures o in net'.sites && ListsDraws(net', o, ds + [Draw(x, net.now)])
  {
    var more := ds + [Draw(x, net.now)];
    assert more[|ds|].lsa == x;
    forall y | y in net'.generated && y.origin == o ensures DrawnIn(y, more) {
      if y != x {
        var k :| 0 <= k < |ds| && ds[k].lsa == y;
        assert more[k].lsa == y;
      }
    }
  }

  lemma ListUnchanged(net: Net, net': Net, o: NodeId, ds: seq<Draw>)
    requires o in net.sites && ListsDraws(net, o, ds) && net'.now >= net.now
    requires SameDraws(net, net', o)
    ensures ListsDraws(net', o, ds)
  {
  }

  lemma ListStep(net: Net, ev: Event, o: NodeId, ds: seq<Draw>)
    requires Reachable(net) && Enabled(net, ev) && o in net.sites && ListsDraws(net, o, ds)
    ensures o in Next(net, ev).sites && ListsDraws(Next(net, ev), o, ds + DrawOf(net, ev, o))
  {
    if ev == GenerateAt(o) {
      ReachableInv(net);
      GroundedSite(net, o);
      GenerateHasEffect(net, o);
      ListWithOneMore(net, Next(net, ev), o, ds, Generate(net.sites[o].node, net.now).1);
    } else {
      SameDrawsOtherwise(net, ev, o);
      ClockAdvances(net, ev);
      ListUnchanged(net, Next(net, ev), o, ds);
      assert ds + DrawOf(net, ev, o) == ds;
    }
  }

  lemma ClockAdvances(net: Net, ev: Event)
    requires Enabled(net, ev)
    ensures Next(net, ev).now >= net.now
  {
  }

  /** In every run the advertisements drawn by an origin have rising numbers and the times of the
      clock, and there are no others of it. */
  lemma {:induction false} DrawsAreListed(start: Net, evs: seq<Event>, o: NodeId)
    requires Initial(start) && Runs(start, evs) && o in start.sites
    ensures o in After(start, evs).sites && ListsDraws(After(start, evs), o, Draws(start, evs, o))
    decreases |evs|
  {
    if evs != [] {
      var front := evs[..|evs| - 1];
      LastEvent(start, evs);
      DrawsAreListed(start, front, o);
      ListStep(After(start, front), evs[|evs| - 1], o, Draws(start, front, o));
    }
  }

  // ----- the two together

  /** A local event of u is stored exactly if it is its own, and what it brings of o has been drawn. */
  ghost predicate Fits(l: Local, u: NodeId, o: NodeId, ds: seq<Draw>) {
    !l.Clean? ==> (l.Store? <==> l.lsa.origin == u) && (l.lsa.origin == o ==> DrawnBefore(l, ds))
  }

  ghost predicate Told(net: Net, locals: seq<Local>, u: NodeId, o: NodeId, ds: seq<Draw>) {
    && Chronological(locals)
    && forall i | 0 <= i < |locals| :: locals[i].at <= net.now && Fits(locals[i], u, o, ds)
  }

  lemma ReceivedWasGenerated(net: Net, ev: Event)
    requires Enabled(net, ev) && DraftsAccounted(net) && StoresPublished(net) && ev.LsaIn?
    ensures ev.q.lsa in net.generated
  {
  }

  lemma GeneratedIsDrawn(net: Net, o: NodeId, ds: seq<Draw>, l: Local)
    requires o in net.sites && ListsDraws(net, o, ds) && Brings(l, o) && l.lsa in net.generated && l.at == net.now
    ensures DrawnBefore(l, ds)
  {
    assert DrawnIn(l.lsa, ds);
    var k :| 0 <= k < |ds| && ds[k].lsa == l.lsa;
    assert ds[k].at <= l.at;
  }

  lemma LocalFits(net: Net, ev: Event, u: NodeId, o: NodeId, ds: seq<Draw>)
    requires Reachable(net) && Enabled(net, ev) && o in net.sites && ListsDraws(net, o, ds)
    ensures forall l <- LocalOf(net, ev, u) :: l.at == net.now && Fits(l, u, o, ds)
  {
    if ev.LsaIn? || ev.PublishAt? {
      assert DraftsAccounted(net) && StoresPublished(net) by {
        ReachableInv(net);
      }
      if ev.LsaIn? {
        ReceivedWasGenerated(net, ev);
      } else {
        DraftsAreOwn(net, ev);
      }
      BroughtFits(net, ev, u, o, ds);
    }
  }

  lemma BroughtFits(net: Net, ev: Event, u: NodeId, o: NodeId, ds: seq<Draw>)
    requires o in net.sites && ListsDraws(net, o, ds)
    requires (ev.LsaIn? && ev.q.lsa in net.generated) ||
        (ev.PublishAt? && ev.lsa in net.generated && ev.lsa.origin == ev.u)
    ensures forall l <- LocalOf(net, ev, u) :: l.at == net.now && Fits(l, u, o, ds)
  {
    forall l | l in LocalOf(net, ev, u) && Brings(l, o) ensures DrawnBefore(l, ds) {
      GeneratedIsDrawn(net, o, ds, l);
    }
  }

  lemma FitsStill(l: Local, u: NodeId, o: NodeId, ds: seq<Draw>, more: seq<Draw>)
    requires Fits(l, u, o, ds)
    ensures Fits(l, u, o, ds + more)
  {
    if Brings(l, o) {
      var k :| 0 <= k < |ds| && l.lsa == ds[k].lsa && ds[k].at <= l.at;
      assert (ds + more)[k] == ds[k];
    }
  }

  lemma ToldStep(net: Net, net': Net, locals: seq<Local>, local: seq<Local>, u: NodeId, o: NodeId, ds: seq<Draw>,
                 more: seq<Draw>)
    requires Told(net, locals, u, o, ds) && net'.now >= net.now && |local| <= 1
    requires forall l <- local :: l.at == net.now && Fits(l, u, o, ds)
    ensures Told(net', locals + local, u, o, ds + more)
  {
    forall i | 0 <= i < |locals + local| ensures Fits((locals + local)[i], u, o, ds + more) {
      FitsStill((locals + local)[i], u, o, ds, more);
    }
  }

  lemma {:induction false} RunIsTold(start: Net, evs: seq<Event>, u: NodeId, o: NodeId)
    requires Initial(start) && Runs(start, evs) && o in start.sites
    ensures Told(After(start, evs), Locals(start, evs, u), u, o, Draws(start, evs, o))
    decreases |evs|
  {
    if evs != [] {
      var front, last := evs[..|evs| - 1], evs[|evs| - 1];
      LastEvent(start, evs);
      RunIsTold(start, front, u, o);
      DrawsAreListed(start, front, o);
      var net := After(start, front);
      LocalFits(net, last, u, o, Draws(start, front, o));
      ClockAdvances(net, last);
      ToldStep(net, Next(net, last), Locals(start, front, u), LocalOf(net, last, u), u, o, Draws(start, front, o),
          DrawOf(net, last, o));
    }
  }

  /** In every run, whatever a node receives or stores of an origin is one of the advertisements the
      origin has drawn by then, and those are in order. */
  lemma RunIsHonest(start: Net, evs: seq<Event>, u: NodeId, o: NodeId)
    requires Initial(start) && Runs(start, evs) && o in start.sites
    ensures Honest(Locals(start, evs, u), o, Draws(start, evs, o))
  {
    RunIsTold(start, evs, u, o);
    DrawsAreListed(start, evs, o);
  }

  lemma {:induction false} LocalsGrow(start: Net, evs: seq<Event>, more: seq<Event>, u: NodeId)
    requires Runs(start, evs + more)
    ensures Runs(start, evs) && Locals(start, evs, u) <= Locals(start, evs + more, u)
    decreases |more|
  {
    if more == [] {
      assert evs + more == evs;
    } else {
      LastEvent(start, evs + more);
      assert (evs + more)[..|evs + more| - 1] == evs + more[..|more| - 1];
      LocalsGrow(start, evs, more[..|more| - 1], u);
    }
  }

  /** In every run, the entry of a live origin, once stored at any node, is never removed there: at
      another node if the origin draws at least every 60 s and that node hears every draw within
      120 s, at the origin itself if it stores at least every 60 s and every draw within 120 s. */
  lemma LiveEntryStays(start: Net, evs: seq<Event>, more: seq<Event>, u: NodeId, o: NodeId)
    requires Initial(start) && Runs(start, evs + more) && u in start.sites && o in start.sites
    requires var locals, ds := Locals(start, evs + more, u), Draws(start, evs + more, o);
      if u == o then StoredInTime(locals, o, ds) && StoresRegularly(locals, o)
      else Refreshed(ds) && Timely(locals, ds) && Live(locals, ds)
    ensures Runs(start, evs) && u in After(start, evs).sites && u in After(start, evs + more).sites
    ensures o in After(start, evs).sites[u].node.lsas ==> o in After(start, evs + more).sites[u].node.lsas
  {
    LocalsGrow(start, evs, more, u);
    DbFollowsLocals(start, evs, u);
    DbFollowsLocals(start, evs + more, u);
    RunIsHonest(start, evs + more, u, o);
    RunIsTold(start, evs + more, u, o);
    StaysInLocals(Locals(start, evs, u), Locals(start, evs + more, u), u, o, Draws(start, evs + more, o),
        After(start, evs + more));
  }

  lemma StaysInLocals(first: seq<Local>, all: seq<Local>, u: NodeId, o: NodeId, ds: seq<Draw>, net: Net)
    requires first <= all && Honest(all, o, ds) && Told(net, all, u, o, ds)
    requires if u == o then StoredInTime(all, o, ds) && StoresRegularly(all, o)
             else Refreshed(ds) && Timely(all, ds) && Live(all, ds)
    ensures o in DbAfter(first) ==> o in DbAfter(all)
  {
    assert all[..|first|] == first && all[..|all|] == all;
    if o in DbAfter(first) {
      if u == o {
        OwnEntryNeverRemoved(all, o, ds, |first|, |all|);
      } else {
        LiveOriginNeverRemoved(all, o, ds, |first|, |all|);
      }
    }
  }

  /** In every run: after o has stopped, no node stores its entry, its own included, once 241 s have
      passed since its last stamp, one clean-up period since anything of it was last received or
      stored there, and less than one such period since the last clean-up. */
  lemma DepartedEntryGone(start: Net, evs: seq<Event>, u: NodeId, o: NodeId, last: nat, quiet: Instant, t: Instant)
    requires Initial(start) && Runs(start, evs) && u in start.sites && o in start.sites
    requires forall d <- Draws(start, evs, o) :: d.lsa.timestamp <= last
    requires var locals := Locals(start, evs, u);
      && CleanedLately(locals, t)
      && forall i | 0 <= i < |locals| && Brings(locals[i], o) :: locals[i].at <= quiet
    requires t >= (last + 241) * SECOND && t >= quiet + CLEANUP
    ensures u in After(start, evs).sites && o !in After(start, evs).sites[u].node.lsas
  {
    DbFollowsLocals(start, evs, u);
    RunIsHonest(start, evs, u, o);
    var locals, ds := Locals(start, evs, u), Draws(start, evs, o);
    forall i | 0 <= i < |locals| && Brings(locals[i], o) ensures locals[i].lsa.timestamp <= last {
      assert DrawnBefore(locals[i], ds);
      var k :| 0 <= k < |ds| && locals[i].lsa == ds[k].lsa;
      assert ds[k] in ds;
    }
    DepartedOriginIsForgotten(locals, o, last, quiet, t);
  }
}
