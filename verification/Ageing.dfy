/** How long an origin's entry stays in the database of any node (`lsa_refresh`, `lsa_cleanup`,
    `cleanup_stale_lsas` in crates/node/src/node.rs), with synchronised clocks. */
module Ageing {
  import opened Common
  import opened LinkState
  import opened NodeStates

  const REFRESH: nat := 60 * SECOND
  const CLEANUP: nat := 60 * SECOND
  const FLOOD_DELAY: nat := 120 * SECOND
  const STALE_AGE: nat := STALE_AGE_SECS * SECOND

  /** What happens to the database of one node: an advertisement of somebody else arrives, one of
      its own is stored whatever is there, stale entries are removed. */
  datatype Local = Receive(at: Instant, lsa: Lsa) | Store(at: Instant, lsa: Lsa) | Clean(at: Instant)

  function Apply(db: LsaDb, ev: Local): LsaDb {
    match ev
    case Receive(_, lsa) => Merge(db, lsa)
    case Store(_, lsa) => db[lsa.origin := lsa]
    case Clean(at) => Cleaned(db, at / SECOND)
  }

  function DbAfter(evs: seq<Local>): LsaDb {
    if evs == [] then map[] else Apply(DbAfter(evs[..|evs| - 1]), evs[|evs| - 1])
  }

  lemma DbStep(evs: seq<Local>, i: nat)
    requires i < |evs|
    ensures DbAfter(evs[..i + 1]) == Apply(DbAfter(evs[..i]), evs[i])
  {
    assert evs[..i + 1][..i] == evs[..i];
  }

  ghost predicate Chronological(evs: seq<Local>) {
    forall i, j | 0 <= i <= j < |evs| :: evs[i].at <= evs[j].at
  }

  predicate Brings(ev: Local, o: NodeId) {
    !ev.Clean? && ev.lsa.origin == o
  }

  /** An advertisement and the moment its origin drew it. */
  datatype Draw = Draw(lsa: Lsa, at: Instant)

  /** Successive advertisements of o: rising numbers, times that do not fall, stamps in whole
      seconds of the time. */
  ghost predicate Numbered(ds: seq<Draw>, o: NodeId) {
    && (forall k | 0 <= k < |ds| :: ds[k].lsa.origin == o && ds[k].lsa.timestamp == ds[k].at / 1_000_000_000)
    && (forall j, k | 0 <= j < k < |ds| :: ds[j].lsa.sequence < ds[k].lsa.sequence && ds[j].at <= ds[k].at)
  }

  /** Whatever a node gets of o has been drawn by then. */
  ghost predicate DrawnBefore(ev: Local, ds: seq<Draw>) {
    !ev.Clean? && exists k :: 0 <= k < |ds| && ev.lsa == ds[k].lsa && ds[k].at <= ev.at
  }

  ghost predicate Sound(evs: seq<Local>, o: NodeId, ds: seq<Draw>) {
    forall i | 0 <= i < |evs| && Brings(evs[i], o) :: DrawnBefore(evs[i], ds)
  }

  /** What is true of the events of a node and the advertisements of an origin anyway. */
  ghost predicate Honest(evs: seq<Local>, o: NodeId, ds: seq<Draw>) {
    Chronological(evs) && Numbered(ds, o) && Sound(evs, o, ds)
  }

  predicate Has(evs: seq<Local>, i: nat, o: NodeId)
    requires i <= |evs|
  {
    o in DbAfter(evs[..i])
  }

  lemma {:induction false} StaysFrom(evs: seq<Local>, o: NodeId, i: nat, j: nat)
    requires i <= j <= |evs| && Has(evs, i, o)
    requires forall k: nat | k < |evs| && Has(evs, k, o) :: Has(evs, k + 1, o)
    ensures Has(evs, j, o)
  {
    if i < j {
      StaysFrom(evs, o, i, j - 1);
      assert Has(evs, j - 1 + 1, o);
    }
  }

  lemma SecondsApart(t: Instant, s: Instant)
    requires t <= s + STALE_AGE
    ensures t / SECOND <= s / SECOND + STALE_AGE_SECS
  {
    assert (s + STALE_AGE_SECS * SECOND) / SECOND == s / SECOND + STALE_AGE_SECS;
  }

  // ----- the entry of a live origin at another node

  /** A refresh at most every 60 s. */
  ghost predicate Refreshed(ds: seq<Draw>) {
    forall k | 0 <= k < |ds| - 1 :: ds[k + 1].at <= ds[k].at + REFRESH
  }

  /** x or a newer advertisement of its origin is among the first i events. */
  ghost predicate HeardOf(evs: seq<Local>, i: nat, x: Lsa)
    requires i <= |evs|
  {
    exists j :: 0 <= j < i && evs[j].Receive? && evs[j].lsa.origin == x.origin && evs[j].lsa.sequence >= x.sequence
  }

  /** A node that stores an entry of an origin at a clean-up has heard of whatever the origin drew
      more than the flood delay before.  Nothing is demanded of a node that stores none, such as
      one that has not joined yet. */
  ghost predicate Timely(evs: seq<Local>, ds: seq<Draw>) {
    forall i, k | 0 <= i < |evs| && evs[i].Clean? && 0 <= k < |ds| && ds[k].at + FLOOD_DELAY < evs[i].at ::
      Has(evs, i, ds[k].lsa.origin) ==> HeardOf(evs, i, ds[k].lsa)
  }

  ghost predicate DrewLately(ds: seq<Draw>, t: Instant) {
    exists k :: 0 <= k < |ds| && ds[k].at <= t <= ds[k].at + REFRESH
  }

  /** From its first advertisement on, o has drawn one within the last refresh interval. */
  ghost predicate Live(evs: seq<Local>, ds: seq<Draw>) {
    forall i | 0 <= i < |evs| && evs[i].Clean? && ds != [] && ds[0].at <= evs[i].at :: DrewLately(ds, evs[i].at)
  }

  /** A node other than o hears a live o in time. */
  ghost predicate HearsInTime(evs: seq<Local>, o: NodeId, ds: seq<Draw>) {
    && Refreshed(ds) && Timely(evs, ds) && Live(evs, ds)
    && forall i | 0 <= i < |evs| && Brings(evs[i], o) :: evs[i].Receive?
  }

  /** These assumptions can be met: for instance by a node that joins late, never hears of the first
      two advertisements of an origin, and hears the third half a second after it was drawn. */
  lemma AssumptionsCanBeMet(o: NodeId)
    ensures var x, y, z := Lsa(o, 1, 0, {}), Lsa(o, 2, 60, {}), Lsa(o, 3, 120, {});
      var evs := [Clean(60 * SECOND), Receive(120 * SECOND + SECOND / 2, z), Clean(180 * SECOND)];
      var ds := [Draw(x, 0), Draw(y, 60 * SECOND), Draw(z, 120 * SECOND)];
      Honest(evs, o, ds) && HearsInTime(evs, o, ds)
  {
    var x, y, z := Lsa(o, 1, 0, {}), Lsa(o, 2, 60, {}), Lsa(o, 3, 120, {});
    var evs := [Clean(60 * SECOND), Receive(120 * SECOND + SECOND / 2, z), Clean(180 * SECOND)];
    var ds := [Draw(x, 0), Draw(y, 60 * SECOND), Draw(z, 120 * SECOND)];
    assert Honest(evs, o, ds) by {
      assert evs[1].lsa == ds[2].lsa && DrawnBefore(evs[1], ds);
    }
    assert Live(evs, ds) by {
      assert ds[1].at <= evs[0].at <= ds[1].at + REFRESH && ds[2].at <= evs[2].at <= ds[2].at + REFRESH;
      assert DrewLately(ds, evs[0].at) && DrewLately(ds, evs[2].at);
    }
    assert Timely(evs, ds) by {
      assert HeardOf(evs, 2, x);
    }
  }

  /** The last advertisement before a moment that is overdue by it, if any. */
  lemma LastOverdue(ds: seq<Draw>, t: Instant, k: nat) returns (j: nat)
    requires k < |ds| && ds[k].at + FLOOD_DELAY < t
    ensures k <= j < |ds| && ds[j].at + FLOOD_DELAY < t
    ensures j + 1 < |ds| ==> ds[j + 1].at + FLOOD_DELAY >= t
    decreases |ds| - k
  {
    j := k;
    if k + 1 < |ds| && ds[k + 1].at + FLOOD_DELAY < t {
      j := LastOverdue(ds, t, k + 1);
    }
  }

  /** What the first i events leave: everything received is still matched, and an entry of o was
      drawn before it came. */
  ghost predicate Kept(evs: seq<Local>, i: nat, o: NodeId, ds: seq<Draw>)
    requires i <= |evs|
  {
    var db := DbAfter(evs[..i]);
    && (forall j | 0 <= j < i && Brings(evs[j], o) :: o in db && db[o].sequence >= evs[j].lsa.sequence)
    && (o in db ==> exists j, k :: 0 <= j < i && 0 <= k < |ds| && db[o] == ds[k].lsa && ds[k].at <= evs[j].at)
  }

  /** An entry older than the flood delay is of the last advertisement older than that. */
  lemma OverdueIsLast(evs: seq<Local>, i: nat, o: NodeId, ds: seq<Draw>, k: nat)
    requires Numbered(ds, o) && Timely(evs, ds)
    requires i < |evs| && evs[i].Clean? && Kept(evs, i, o, ds) && Has(evs, i, o)
    requires k < |ds| && DbAfter(evs[..i])[o] == ds[k].lsa && ds[k].at + FLOOD_DELAY < evs[i].at
    ensures k + 1 < |ds| ==> ds[k + 1].at + FLOOD_DELAY >= evs[i].at
  {
    var last := LastOverdue(ds, evs[i].at, k);
    assert HeardOf(evs, i, ds[last].lsa);
    var r :| 0 <= r < i && evs[r].Receive? && evs[r].lsa.origin == o && evs[r].lsa.sequence >= ds[last].lsa.sequence;
    assert Brings(evs[r], o);
    assert last == k;
  }

  /** The last advertisement older than the flood delay is not yet stale if o is live. */
  lemma LastIsFresh(ds: seq<Draw>, o: NodeId, k: nat, t: Instant)
    requires Numbered(ds, o) && Refreshed(ds) && k < |ds| && DrewLately(ds, t)
    requires k + 1 < |ds| ==> ds[k + 1].at + FLOOD_DELAY >= t
    ensures t <= ds[k].at + STALE_AGE
  {
    if k + 1 == |ds| {
      var m :| 0 <= m < |ds| && ds[m].at <= t <= ds[m].at + REFRESH;
      assert m < k ==> ds[m].at <= ds[k].at;
    }
  }

  /** The entry of a live origin is never stale at a clean-up. */
  lemma NotStaleAtClean(evs: seq<Local>, i: nat, o: NodeId, ds: seq<Draw>)
    requires Honest(evs, o, ds) && HearsInTime(evs, o, ds)
    requires i < |evs| && evs[i].Clean? && Kept(evs, i, o, ds) && Has(evs, i, o)
    ensures !Stale(DbAfter(evs[..i])[o], evs[i].at / SECOND)
  {
    var t, x := evs[i].at, DbAfter(evs[..i])[o];
    var j, k: nat :| 0 <= j < i && k < |ds| && x == ds[k].lsa && ds[k].at <= evs[j].at;
    if ds[k].at + FLOOD_DELAY < t {
      OverdueIsLast(evs, i, o, ds, k);
      assert ds[0].at <= t;
      LastIsFresh(ds, o, k, t);
    }
    SecondsApart(t, ds[k].at);
  }

  lemma KeptStep(evs: seq<Local>, i: nat, o: NodeId, ds: seq<Draw>)
    requires Honest(evs, o, ds) && HearsInTime(evs, o, ds)
    requires i < |evs| && Kept(evs, i, o, ds)
    ensures Kept(evs, i + 1, o, ds)
    ensures Has(evs, i, o) ==> Has(evs, i + 1, o)
  {
    DbStep(evs, i);
    var db, db' := DbAfter(evs[..i]), DbAfter(evs[..i + 1]);
    if Brings(evs[i], o) {
      assert o in db' && db'[o].sequence >= evs[i].lsa.sequence && (o in db ==> db'[o].sequence >= db[o].sequence);
      assert DrawnBefore(evs[i], ds);
    } else {
      if evs[i].Clean? && o in db {
        NotStaleAtClean(evs, i, o, ds);
      }
      assert Lookup(db', o) == Lookup(db, o);
    }
    KeptExtends(evs, i, o, ds);
  }

  lemma KeptExtends(evs: seq<Local>, i: nat, o: NodeId, ds: seq<Draw>)
    requires i < |evs| && (Brings(evs[i], o) ==> DrawnBefore(evs[i], ds)) && Kept(evs, i, o, ds)
    requires var db, db' := DbAfter(evs[..i]), DbAfter(evs[..i + 1]);
      if Brings(evs[i], o)
      then o in db' && db'[o].sequence >= evs[i].lsa.sequence && (o in db ==> db'[o].sequence >= db[o].sequence)
           && (db'[o] == evs[i].lsa || (o in db && db'[o] == db[o]))
      else Lookup(db', o) == Lookup(db, o)
    ensures Kept(evs, i + 1, o, ds)
  {
  }

  lemma {:induction false} KeptAll(evs: seq<Local>, i: nat, o: NodeId, ds: seq<Draw>)
    requires Honest(evs, o, ds) && HearsInTime(evs, o, ds)
    requires i <= |evs|
    ensures Kept(evs, i, o, ds)
  {
    if i > 0 {
      KeptAll(evs, i - 1, o, ds);
      KeptStep(evs, i - 1, o, ds);
    }
  }

  /** With a 60 s refresh and an end-to-end flood delay of at most 120 s, the entry of a live
      origin, once stored at another node, is there after every later event. */
  lemma LiveOriginNeverRemoved(evs: seq<Local>, o: NodeId, ds: seq<Draw>, i: nat, j: nat)
    requires Honest(evs, o, ds) && HearsInTime(evs, o, ds)
    requires i <= j <= |evs| && Has(evs, i, o)
    ensures Has(evs, j, o)
  {
    forall k: nat | k < |evs| && Has(evs, k, o) ensures Has(evs, k + 1, o) {
      KeptAll(evs, k, o, ds);
      KeptStep(evs, k, o, ds);
    }
    StaysFrom(evs, o, i, j);
  }

  // ----- the entry of a live origin at the origin itself

  predicate Stores(ev: Local, o: NodeId) {
    ev.Store? && ev.lsa.origin == o
  }

  /** Every draft of o is stored within the delay. */
  ghost predicate StoredInTime(evs: seq<Local>, o: NodeId, ds: seq<Draw>) {
    forall i, k | 0 <= i < |evs| && Stores(evs[i], o) && 0 <= k < |ds| && ds[k].lsa == evs[i].lsa ::
      evs[i].at <= ds[k].at + FLOOD_DELAY
  }

  ghost predicate StoredLately(evs: seq<Local>, o: NodeId, i: nat)
    requires i < |evs|
  {
    exists r :: 0 <= r < i && Stores(evs[r], o) && evs[i].at <= evs[r].at + REFRESH
  }

  /** From its first store on, o has stored within the last refresh interval. */
  ghost predicate StoresRegularly(evs: seq<Local>, o: NodeId) {
    forall i, r | 0 <= r < i < |evs| && evs[i].Clean? && Stores(evs[r], o) :: StoredLately(evs, o, i)
  }

  /** The origin o stores its own advertisements in time, and nothing of its own from others. */
  ghost predicate KeepsUp(evs: seq<Local>, o: NodeId, ds: seq<Draw>) {
    && StoredInTime(evs, o, ds) && StoresRegularly(evs, o)
    && forall i | 0 <= i < |evs| && Brings(evs[i], o) :: evs[i].Store?
  }

  /** Likewise, for instance by an origin that stores at once what it draws every minute. */
  lemma OwnAssumptionsCanBeMet(o: NodeId)
    ensures var x, y := Lsa(o, 1, 0, {}), Lsa(o, 2, 60, {});
      var evs := [Store(0, x), Clean(60 * SECOND), Store(60 * SECOND, y), Clean(120 * SECOND)];
      var ds := [Draw(x, 0), Draw(y, 60 * SECOND)];
      Honest(evs, o, ds) && KeepsUp(evs, o, ds)
  {
    var x, y := Lsa(o, 1, 0, {}), Lsa(o, 2, 60, {});
    var evs := [Store(0, x), Clean(60 * SECOND), Store(60 * SECOND, y), Clean(120 * SECOND)];
    var ds := [Draw(x, 0), Draw(y, 60 * SECOND)];
    assert evs[0].lsa == ds[0].lsa && evs[2].lsa == ds[1].lsa;
    assert DrawnBefore(evs[0], ds) && DrawnBefore(evs[2], ds);
    assert Stores(evs[0], o) && Stores(evs[2], o);
    assert StoredLately(evs, o, 1) && StoredLately(evs, o, 3);
  }

  /** The last of the first i events that stored an advertisement of o. */
  ghost predicate LastStore(evs: seq<Local>, i: nat, o: NodeId, r: nat)
    requires i <= |evs|
  {
    r < i && Stores(evs[r], o) && forall n | r < n < i :: !Stores(evs[n], o)
  }

  /** The own entry is what was stored last. */
  ghost predicate OwnKept(evs: seq<Local>, i: nat, o: NodeId)
    requires i <= |evs|
  {
    Has(evs, i, o) ==> exists r: nat :: LastStore(evs, i, o, r) && DbAfter(evs[..i])[o] == evs[r].lsa
  }

  lemma {:induction false} OwnKeptAll(evs: seq<Local>, i: nat, o: NodeId)
    requires i <= |evs| && forall n | 0 <= n < |evs| && Brings(evs[n], o) :: evs[n].Store?
    ensures OwnKept(evs, i, o)
  {
    if i > 0 {
      var n := i - 1;
      OwnKeptAll(evs, n, o);
      DbStep(evs, n);
      if Stores(evs[n], o) {
        assert LastStore(evs, i, o, n);
      } else if Has(evs, i, o) {
        assert Lookup(DbAfter(evs[..i]), o) == Lookup(DbAfter(evs[..n]), o);
        var r: nat :| LastStore(evs, n, o, r) && DbAfter(evs[..n])[o] == evs[r].lsa;
        assert LastStore(evs, i, o, r);
      }
    }
  }

  lemma OwnNotStaleAtClean(evs: seq<Local>, i: nat, o: NodeId, ds: seq<Draw>)
    requires Honest(evs, o, ds) && KeepsUp(evs, o, ds)
    requires i < |evs| && evs[i].Clean? && Has(evs, i, o)
    ensures !Stale(DbAfter(evs[..i])[o], evs[i].at / SECOND)
  {
    OwnKeptAll(evs, i, o);
    var r: nat :| LastStore(evs, i, o, r) && DbAfter(evs[..i])[o] == evs[r].lsa;
    assert StoredLately(evs, o, i);
    var r': nat :| r' < i && Stores(evs[r'], o) && evs[i].at <= evs[r'].at + REFRESH;
    assert r' <= r;
    assert Brings(evs[r], o) && DrawnBefore(evs[r], ds);
    var k :| 0 <= k < |ds| && evs[r].lsa == ds[k].lsa && ds[k].at <= evs[r].at;
    SecondsApart(evs[i].at, ds[k].at);
  }

  /** If o stores at least every 60 s and every draft within 120 s of being drawn, its own entry,
      once stored, is there after every later event. */
  lemma OwnEntryNeverRemoved(evs: seq<Local>, o: NodeId, ds: seq<Draw>, i: nat, j: nat)
    requires Honest(evs, o, ds) && KeepsUp(evs, o, ds)
    requires i <= j <= |evs| && Has(evs, i, o)
    ensures Has(evs, j, o)
  {
    forall k: nat | k < |evs| && Has(evs, k, o) ensures Has(evs, k + 1, o) {
      DbStep(evs, k);
      if evs[k].Clean? {
        OwnNotStaleAtClean(evs, k, o, ds);
      }
    }
    StaysFrom(evs, o, i, j);
  }

  // ----- a departed origin

  /** Every advertisement of o that ever comes is stamped `last` or earlier. */
  ghost predicate StampedBy(evs: seq<Local>, o: NodeId, last: nat) {
    forall i | 0 <= i < |evs| && Brings(evs[i], o) :: evs[i].lsa.timestamp <= last
  }

  lemma {:induction false} StoredStamp(evs: seq<Local>, o: NodeId, last: nat, i: nat)
    requires StampedBy(evs, o, last) && i <= |evs|
    ensures o in DbAfter(evs[..i]) ==> DbAfter(evs[..i])[o].timestamp <= last
  {
    if i > 0 {
      StoredStamp(evs, o, last, i - 1);
      DbStep(evs, i - 1);
    }
  }

  /** Once nothing of o arrives any more, the first clean-up more than 180 s after its last
      stamp removes the entry for good. */
  lemma {:induction false} GoneAfterClean(evs: seq<Local>, o: NodeId, last: nat, n: nat, i: nat)
    requires StampedBy(evs, o, last) && n < i <= |evs|
    requires evs[n].Clean? && evs[n].at / SECOND > last + STALE_AGE_SECS
    requires forall k | n <= k < |evs| :: !Brings(evs[k], o)
    ensures o !in DbAfter(evs[..i])
  {
    DbStep(evs, i - 1);
    if i == n + 1 {
      StoredStamp(evs, o, last, n);
    } else {
      GoneAfterClean(evs, o, last, n, i - 1);
    }
  }

  /** A clean-up fell within the clean-up period before t. */
  ghost predicate CleanedLately(evs: seq<Local>, t: Instant) {
    exists n :: 0 <= n < |evs| && evs[n].Clean? && evs[n].at <= t < evs[n].at + CLEANUP
  }

  /** After o has stopped, its entry is gone from a node once 241 s have passed since its last
      stamp and one clean-up period since anything of o last came. */
  lemma DepartedOriginIsForgotten(evs: seq<Local>, o: NodeId, last: nat, quiet: Instant, t: Instant)
    requires Chronological(evs) && StampedBy(evs, o, last) && CleanedLately(evs, t)
    requires forall i | 0 <= i < |evs| && Brings(evs[i], o) :: evs[i].at <= quiet
    requires t >= (last + 241) * SECOND && t >= quiet + CLEANUP
    ensures o !in DbAfter(evs)
  {
    var n :| 0 <= n < |evs| && evs[n].Clean? && evs[n].at <= t < evs[n].at + CLEANUP;
    assert (last + 181) * SECOND / SECOND == last + 181;
    assert evs[n].at >= (last + 181) * SECOND;
    assert evs[n].at / SECOND >= last + 181;
    forall k | n <= k < |evs| ensures !Brings(evs[k], o) {
      assert evs[n].at <= evs[k].at;
    }
    GoneAfterClean(evs, o, last, n, |evs|);
    assert evs[..|evs|] == evs;
  }
}
