/** Link state advertisements and the database that keeps the newest one of every origin
    (`handle_lsa` and `cleanup_stale_lsas` in crates/node/src/node.rs). */
module LinkState {
  import opened Common

  /** One advertisement; the timestamp is in whole seconds. */
  datatype Lsa = Lsa(origin: NodeId, sequence: nat, timestamp: nat, neighbors: set<NodeId>)

  type LsaDb = map<NodeId, Lsa>

  /** Entries older than this many seconds are stale. */
  const STALE_AGE_SECS := 180

  predicate Newer(a: Lsa, b: Lsa) {
    a.sequence > b.sequence || (a.sequence == b.sequence && a.timestamp > b.timestamp)
  }

  /** A first advertisement is always accepted, a later one only if it is newer. */
  predicate Accepts(db: LsaDb, lsa: Lsa) {
    lsa.origin !in db || Newer(lsa, db[lsa.origin])
  }

  function Merge(db: LsaDb, lsa: Lsa): LsaDb {
    if Accepts(db, lsa) then db[lsa.origin := lsa] else db
  }

  /** The database after merging a whole sequence, first element first. */
  function MergeAll(db: LsaDb, xs: seq<Lsa>): LsaDb {
    if xs == [] then db else Merge(MergeAll(db, xs[..|xs| - 1]), xs[|xs| - 1])
  }

  predicate Stale(lsa: Lsa, nowSecs: nat) {
    nowSecs > lsa.timestamp && nowSecs - lsa.timestamp > STALE_AGE_SECS
  }

  function Cleaned(db: LsaDb, nowSecs: nat): LsaDb {
    map o <- db | !Stale(db[o], nowSecs) :: db[o]
  }

  // ----- merging does not depend on order or duplication

  /** x is among the newest advertisements of its origin in xs. */
  ghost predicate Newest(x: Lsa, xs: seq<Lsa>) {
    x in xs && forall y <- xs | y.origin == x.origin :: !Newer(y, x)
  }

  /** No origin has two different newest advertisements. */
  ghost predicate NewestUnique(xs: seq<Lsa>) {
    forall x, y | Newest(x, xs) && Newest(y, xs) && x.origin == y.origin :: x == y
  }

  ghost predicate SameElements(xs: seq<Lsa>, ys: seq<Lsa>) {
    forall x :: x in xs <==> x in ys
  }

  ghost predicate OrderIndependent(xs: seq<Lsa>) {
    forall ys | SameElements(xs, ys) :: MergeAll(map[], ys) == MergeAll(map[], xs)
  }

  /** The merged database holds, for exactly the origins that occur, one of their newest
      advertisements. */
  lemma {:induction false} MergeAllKeepsNewest(xs: seq<Lsa>)
    ensures forall o :: o in MergeAll(map[], xs) <==> exists x :: x in xs && x.origin == o
    ensures forall o <- MergeAll(map[], xs) :: MergeAll(map[], xs)[o].origin == o && Newest(MergeAll(map[], xs)[o], xs)
  {
    if xs != [] {
      var front, last := xs[..|xs| - 1], xs[|xs| - 1];
      MergeAllKeepsNewest(front);
      assert forall x :: x in xs <==> x in front || x == last;
      var prev, db := MergeAll(map[], front), MergeAll(map[], xs);
      assert last.origin in db;
      forall o | o in db ensures db[o].origin == o && Newest(db[o], xs) {
        if o in prev {
          assert Newest(prev[o], front);
        }
      }
      forall o ensures o in db <==> exists x :: x in xs && x.origin == o {
        if o in prev {
          assert prev[o] in xs;
        }
      }
    }
  }

  /** What is merged is the lexicographic maximum by sequence number and timestamp of what was
      received of each origin. */
  lemma MergedIsMaximum(xs: seq<Lsa>, y: Lsa)
    requires y in xs
    ensures var db := MergeAll(map[], xs);
      && y.origin in db && db[y.origin] in xs && db[y.origin].origin == y.origin
      && (db[y.origin].sequence > y.sequence
          || (db[y.origin].sequence == y.sequence && db[y.origin].timestamp >= y.timestamp))
  {
    MergeAllKeepsNewest(xs);
    assert Newest(MergeAll(map[], xs)[y.origin], xs);
  }

  /** Among tied newest advertisements the first one merged stays. */
  lemma {:induction false} FirstNewestStays(x: Lsa, xs: seq<Lsa>)
    requires forall y <- xs | y.origin == x.origin :: !Newer(y, x)
    ensures x.origin in MergeAll(map[], [x] + xs) && MergeAll(map[], [x] + xs)[x.origin] == x
  {
    if xs == [] {
      assert [x] + xs == [x];
      assert MergeAll(map[], [x][..0]) == map[];
    } else {
      FirstNewestStays(x, xs[..|xs| - 1]);
      assert ([x] + xs)[..|xs|] == [x] + xs[..|xs| - 1];
    }
  }

  lemma SameDatabase(xs: seq<Lsa>, ys: seq<Lsa>)
    requires NewestUnique(xs) && SameElements(xs, ys)
    ensures MergeAll(map[], ys) == MergeAll(map[], xs)
  {
    MergeAllKeepsNewest(xs);
    MergeAllKeepsNewest(ys);
    var a, b := MergeAll(map[], xs), MergeAll(map[], ys);
    forall o ensures o in a <==> o in b {
    }
    forall o | o in a ensures a[o] == b[o] {
      assert Newest(b[o], ys);
      assert Newest(b[o], xs);
    }
  }

  lemma EitherTiedMayStay(xs: seq<Lsa>, x: Lsa, y: Lsa)
    requires OrderIndependent(xs) && Newest(x, xs) && Newest(y, xs) && x.origin == y.origin
    ensures x == y
  {
    FirstNewestStays(x, xs);
    FirstNewestStays(y, xs);
    assert SameElements(xs, [x] + xs) && SameElements(xs, [y] + xs);
  }

  /** Permuting and duplicating what was received leaves the database the same exactly when
      no origin has two different advertisements tied for newest. */
  lemma OrderIndependentIffNewestUnique(xs: seq<Lsa>)
    ensures OrderIndependent(xs) <==> NewestUnique(xs)
  {
    if NewestUnique(xs) {
      forall ys | SameElements(xs, ys) ensures MergeAll(map[], ys) == MergeAll(map[], xs) {
        SameDatabase(xs, ys);
      }
    }
    if OrderIndependent(xs) {
      forall x, y | Newest(x, xs) && Newest(y, xs) && x.origin == y.origin ensures x == y {
        EitherTiedMayStay(xs, x, y);
      }
    }
  }
}
