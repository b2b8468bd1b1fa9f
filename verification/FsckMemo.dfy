/** The cache of verified subtrees (`droot`): what its entries promise, and when a walk
    leaves one behind that promises too much. */
module FsckMemo {
  import opened Media
  import opened FsckWalk

  datatype CacheEntry = CacheEntry(bref: Bref, delta: Delta)

  type Memo = map<nat, seq<CacheEntry>>

  /** Each cached subtree was verified in full and the cached statistics are its statistics. */
  ghost predicate Sound(w: World, memo: Memo)
    requires w.Valid()
  {
    forall off, i :: off in memo && 0 <= i < |memo[off]| ==>
      var e := memo[off][i];
      w.Has(e.bref) && Walk(w, e.bref, false) == Good(e.delta)
  }

  /** Each cached block at least has a good check code of its own. */
  ghost predicate WeaklySound(w: World, memo: Memo)
    requires w.Valid()
  {
    forall off, i :: off in memo && 0 <= i < |memo[off]| ==>
      w.Has(memo[off][i].bref) && Walk(w, memo[off][i].bref, true).Good?
  }

  /** The cache answers for this blockref. */
  ghost predicate Cached(memo: Memo, b: Bref) {
    b.dataOff in memo && exists i :: 0 <= i < |memo[b.dataOff]| && memo[b.dataOff][i].bref == b
  }

  /** The cache vouches for a bad subtree. */
  ghost predicate Lies(w: World, memo: Memo, c: Bref)
    requires w.Valid()
  {
    Cached(memo, c) && w.Has(c) && Walk(w, c, false).Bad?
  }

  /** No hit ever hides a bad block. */
  ghost predicate Truthful(w: World, memo: Memo)
    requires w.Valid()
  {
    forall c :: !Lies(w, memo, c)
  }

  function Appended(memo: Memo, b: Bref, d: Delta): Memo {
    memo[b.dataOff := (if b.dataOff in memo then memo[b.dataOff] else []) + [CacheEntry(b, d)]]
  }

  lemma SoundTruthful(w: World, memo: Memo)
    requires w.Valid()
    ensures Sound(w, memo) ==> Truthful(w, memo)
  {
    hide Walk;
  }

  lemma EmptyMemo(w: World)
    requires w.Valid()
    ensures Sound(w, map[]) && Truthful(w, map[]) && WeaklySound(w, map[])
  {}

  lemma AppendedCached(memo: Memo, b: Bref, d: Delta, c: Bref)
    ensures Cached(Appended(memo, b, d), c) <==> Cached(memo, c) || c == b
  {
    var m := Appended(memo, b, d);
    assert m[b.dataOff][|m[b.dataOff]| - 1] == CacheEntry(b, d);
    if Cached(memo, c) {
      var i :| 0 <= i < |memo[c.dataOff]| && memo[c.dataOff][i].bref == c;
      assert m[c.dataOff][i].bref == c;
    }
  }

  /** What appending one entry does to each of the promises. */
  lemma AppendedKeeps(w: World, memo: Memo, b: Bref, d: Delta)
    requires w.Valid() && w.Has(b)
    ensures forall c {:trigger Cached(Appended(memo, b, d), c)} {:trigger Cached(memo, c)} ::
      Cached(Appended(memo, b, d), c) <==> Cached(memo, c) || c == b
    ensures Sound(w, memo) && Walk(w, b, false) == Good(d) ==> Sound(w, Appended(memo, b, d))
    ensures WeaklySound(w, memo) && Walk(w, b, true).Good? ==> WeaklySound(w, Appended(memo, b, d))
  {
    hide Walk;
    forall c ensures Cached(Appended(memo, b, d), c) <==> Cached(memo, c) || c == b {
      AppendedCached(memo, b, d, c);
    }
  }

  /** Single blocks are cached, also those whose children were not looked at. */
  predicate Single(opts: Options) { opts.cacheCount == 1 && !opts.force }

  /** A good check code of its own above something bad. */
  ghost predicate HalfGood(w: World, b: Bref)
    requires w.Valid() && w.Has(b)
  {
    Walk(w, b, true).Good? && Walk(w, b, false).Bad?
  }

  /** Every entry of `n` that a walk looks at has its properties. */
  ghost function Entry(w: World, n: Node, i: nat): (b: Bref)
    requires w.Valid() && n in w.g.nodes && i < |Entries(w.disk, n)|
    ensures w.Has(b) && b == Entries(w.disk, n)[i]
    ensures Radix(b.dataOff) != 0 ==> w.g.rank(NodeOf(b)) < w.g.rank(n)
  {
    ChildHas(w, n, i);
    Entries(w.disk, n)[i]
  }

  /** The loop over the children of the failed block `n` comes to entry `k`: it looks at
      each child alone, and stops at the first that fails. */
  ghost predicate Reached(w: World, n: Node, k: nat)
    requires w.Valid() && n in w.g.nodes && k <= |Entries(w.disk, n)|
  {
    forall j: nat {:trigger Entry(w, n, j)} :: j < k ==> Walk(w, Entry(w, n, j), true).Good?
  }

  /** `c` is one of the first `k` children of the failed block `n`, the loop comes to it,
      and it is only half good. */
  ghost predicate SpoilsHere(w: World, n: Node, k: nat, c: Bref)
    requires w.Valid() && n in w.g.nodes && k <= |Entries(w.disk, n)|
  {
    exists i: nat {:trigger Entry(w, n, i)} :: i < k && Reached(w, n, i) && Entry(w, n, i) == c && HalfGood(w, c)
  }

  /** The full walk of `b` comes to a failed block that has such a child `c`. */
  ghost predicate Spoils(w: World, b: Bref, c: Bref)
    requires w.Valid() && w.Has(b)
    decreases if Radix(b.dataOff) == 0 then 0 else w.g.rank(NodeOf(b)) + 1, 1
  {
    Radix(b.dataOff) != 0 && b.dataOff !in w.unreadable &&
    var n := NodeOf(b);
    assert NodeOk(w.disk, w.g, n);
    if CheckOk(w.hs, b.methods, b.check, w.disk[b.dataOff]) then SpoilsBelow(w, n, |Entries(w.disk, n)|, c)
    else SpoilsHere(w, n, |Entries(w.disk, n)|, c)
  }

  /** The walk of the first `k` children of a good block does: all before that child are good. */
  ghost predicate SpoilsBelow(w: World, n: Node, k: nat, c: Bref)
    requires w.Valid() && n in w.g.nodes && k <= |Entries(w.disk, n)|
    decreases w.g.rank(n) + 1, 0
  {
    exists i: nat {:trigger Entry(w, n, i)} :: i < k && WalkFirst(w, n, i).Good? && Spoils(w, Entry(w, n, i), c)
  }

  /** Nothing half good is met on the way through a good subtree. */
  lemma {:induction false} GoodSpoilsNone(w: World, b: Bref, c: Bref)
    requires w.Valid() && w.Has(b) && Walk(w, b, false).Good?
    ensures !Spoils(w, b, c)
    decreases if Radix(b.dataOff) == 0 then 0 else w.g.rank(NodeOf(b)) + 1, 1
  {
    if Radix(b.dataOff) != 0 {
      assert NodeOk(w.disk, w.g, NodeOf(b));
      FirstSpoilsNone(w, NodeOf(b), |Entries(w.disk, NodeOf(b))|, c);
    }
  }

  lemma {:induction false} FirstSpoilsNone(w: World, n: Node, k: nat, c: Bref)
    requires w.Valid() && n in w.g.nodes && k <= |Entries(w.disk, n)| && WalkFirst(w, n, k).Good?
    ensures !SpoilsBelow(w, n, k, c)
    decreases w.g.rank(n) + 1, 0, k
  {
    hide Walk, WalkFirst, Spoils;
    if k > 0 {
      FirstNext(w, n, k - 1, Entry(w, n, k - 1));
      FirstSpoilsNone(w, n, k - 1, c);
      GoodSpoilsNone(w, Entry(w, n, k - 1), c);
    }
  }

  /** One more child of a good block: the walk comes to it when those before are good. */
  lemma BelowNext(w: World, n: Node, k: nat, c: Bref)
    requires w.Valid() && n in w.g.nodes && k < |Entries(w.disk, n)| && WalkFirst(w, n, k).Good?
    ensures SpoilsBelow(w, n, k + 1, c) <==> Spoils(w, Entry(w, n, k), c)
  {
    FirstSpoilsNone(w, n, k, c);
  }

  /** A walk that stops at child `k` meets nothing behind it. */
  lemma {:induction false} BelowStops(w: World, n: Node, k: nat, m: nat, c: Bref)
    requires w.Valid() && n in w.g.nodes && k < m <= |Entries(w.disk, n)| && WalkFirst(w, n, k + 1).Bad?
    ensures SpoilsBelow(w, n, m, c) <==> SpoilsBelow(w, n, k + 1, c)
  {
    forall i: nat | k < i < m ensures WalkFirst(w, n, i).Bad? {
      WalkFirstBad(w, n, k, i);
    }
    forall i: nat | i < k + 1 ensures Entry(w, n, i) == Entries(w.disk, n)[i] {}
  }

  lemma ReachedGood(w: World, n: Node, i: nat, j: nat)
    requires w.Valid() && n in w.g.nodes && j < i <= |Entries(w.disk, n)|
    ensures Reached(w, n, i) ==> Walk(w, Entry(w, n, j), true).Good?
  {}

  lemma ReachedNext(w: World, n: Node, k: nat)
    requires w.Valid() && n in w.g.nodes && k < |Entries(w.disk, n)| && Reached(w, n, k)
    ensures Reached(w, n, k + 1) <==> Walk(w, Entry(w, n, k), true).Good?
  {
    hide Walk;
    ReachedGood(w, n, k + 1, k);
  }

  lemma HereNext(w: World, n: Node, k: nat, c: Bref)
    requires w.Valid() && n in w.g.nodes && k < |Entries(w.disk, n)| && Reached(w, n, k)
    ensures SpoilsHere(w, n, k + 1, c) <==> SpoilsHere(w, n, k, c) || (Entry(w, n, k) == c && HalfGood(w, c))
  {
    hide Walk, HalfGood;
  }

  lemma HereStops(w: World, n: Node, k: nat, m: nat, c: Bref)
    requires w.Valid() && n in w.g.nodes && k < m <= |Entries(w.disk, n)| && !Walk(w, Entry(w, n, k), true).Good?
    ensures SpoilsHere(w, n, m, c) <==> SpoilsHere(w, n, k, c)
  {
    hide Walk, HalfGood, Reached;
    forall i: nat | k < i < m ensures !Reached(w, n, i) {
      ReachedGood(w, n, i, k);
    }
    if SpoilsHere(w, n, m, c) {
      HalfGoodAlone(w, c);
    }
  }

  /** The simplest such walk: the first child of a failed block is half good. */
  lemma FirstChildSpoils(w: World, b: Bref)
    requires w.Valid() && w.Has(b) && Radix(b.dataOff) != 0 && b.dataOff !in w.unreadable
    requires b.dataOff in w.disk && !CheckOk(w.hs, b.methods, b.check, w.disk[b.dataOff])
    requires |Entries(w.disk, NodeOf(b))| > 0 && HalfGood(w, Entry(w, NodeOf(b), 0))
    ensures Walk(w, b, false).Bad? && Spoils(w, b, Entry(w, NodeOf(b), 0))
  {
    hide HalfGood;
    WalkOne(w, b, false);
    assert Reached(w, NodeOf(b), 0);
  }

  /** A good block above it: the walk comes to what its first child's walk comes to. */
  lemma FirstChildPasses(w: World, b: Bref, c: Bref)
    requires w.Valid() && w.Has(b) && Radix(b.dataOff) != 0 && b.dataOff !in w.unreadable
    requires b.dataOff in w.disk && CheckOk(w.hs, b.methods, b.check, w.disk[b.dataOff])
    requires |Entries(w.disk, NodeOf(b))| > 0 && Spoils(w, Entry(w, NodeOf(b), 0), c)
    ensures Spoils(w, b, c)
  {
    hide HalfGood, Walk;
    assert WalkFirst(w, NodeOf(b), 0).Good?;
  }

  lemma HalfGoodAlone(w: World, b: Bref)
    requires w.Valid()
    ensures w.Has(b) && HalfGood(w, b) ==> Walk(w, b, true).Good?
  {}

  /** What a walk of `b` makes of the cache.  A walk of the block alone adds the lie about
      `b` exactly when `b` is half good and single blocks are cached.  A full walk that
      begins with a truthful cache adds exactly the lies about the half good children of
      failed blocks that it comes to. */
  ghost predicate LeavesOn(w: World, a: Memo, m: Memo, b: Bref, full: bool, c: Bref)
    requires w.Valid() && w.Has(b)
  {
    if full then
      && (Lies(w, a, c) ==> Lies(w, m, c))
      && (Truthful(w, a) ==> (Lies(w, m, c) <==> Single(w.opts) && Spoils(w, b, c)))
    else Lies(w, m, c) <==> Lies(w, a, c) || (Single(w.opts) && c == b && HalfGood(w, b))
  }

  ghost predicate Leaves(w: World, a: Memo, m: Memo, b: Bref, full: bool)
    requires w.Valid() && w.Has(b)
  {
    forall c :: LeavesOn(w, a, m, b, full, c)
  }

  /** The same for the first `k` children of a block. */
  ghost predicate LeavesAllOn(w: World, a: Memo, m: Memo, n: Node, k: nat, full: bool, c: Bref)
    requires w.Valid() && n in w.g.nodes && k <= |Entries(w.disk, n)|
  {
    if full then
      && (Lies(w, a, c) ==> Lies(w, m, c))
      && (Truthful(w, a) ==> (Lies(w, m, c) <==> Single(w.opts) && SpoilsBelow(w, n, k, c)))
    else Lies(w, m, c) <==> Lies(w, a, c) || (Single(w.opts) && SpoilsHere(w, n, k, c))
  }

  ghost predicate LeavesAll(w: World, a: Memo, m: Memo, n: Node, k: nat, full: bool)
    requires w.Valid() && n in w.g.nodes && k <= |Entries(w.disk, n)|
  {
    forall c :: LeavesAllOn(w, a, m, n, k, full, c)
  }

  /** A hit. */
  lemma HitLeaves(w: World, a: Memo, b: Bref, full: bool)
    requires w.Valid() && w.Has(b) && Cached(a, b)
    ensures Leaves(w, a, a, b, full)
  {
    hide Walk, Spoils, Cached;
    assert !Lies(w, a, b) ==> Walk(w, b, false).Good?;
    forall c ensures LeavesOn(w, a, a, b, full, c) {
      if Truthful(w, a) {
        assert !Lies(w, a, b) && !Lies(w, a, c);
        GoodSpoilsNone(w, b, c);
      }
      HalfGoodLies(w, a, b);
    }
  }

  lemma HalfGoodLies(w: World, a: Memo, b: Bref)
    requires w.Valid() && w.Has(b) && Cached(a, b)
    ensures HalfGood(w, b) ==> Lies(w, a, b)
  {}

  /** The walk of a block that names nothing, or that cannot be read. */
  lemma ShortLeaves(w: World, a: Memo, b: Bref)
    requires w.Valid() && w.Has(b) && (Radix(b.dataOff) == 0 || b.dataOff in w.unreadable)
    ensures Leaves(w, a, a, b, true)
  {
    hide Lies;
    forall c ensures LeavesOn(w, a, a, b, true, c) {}
  }

  lemma AloneNotHalf(w: World, b: Bref)
    requires w.Valid() && w.Has(b) && (!Walk(w, b, true).Good? || b.dataOff == 0)
    ensures !HalfGood(w, b)
  {
    WalkOne(w, b, true);
    WalkOne(w, b, false);
    hide Walk;
  }

  /** A block looked at alone that is not cached. */
  lemma AloneLeaves(w: World, a: Memo, b: Bref)
    requires w.Valid() && w.Has(b) && (!Walk(w, b, true).Good? || !Single(w.opts) || b.dataOff == 0)
    ensures Leaves(w, a, a, b, false)
  {
    if Single(w.opts) { AloneNotHalf(w, b); }
    hide Lies, Walk, HalfGood;
    forall c ensures LeavesOn(w, a, a, b, false, c) {}
  }

  /** The walk of the children of `b`: alone exactly when `b` failed and nothing is forced. */
  lemma BlockLeaves(w: World, a: Memo, m: Memo, b: Bref)
    requires w.Valid() && w.Has(b) && Radix(b.dataOff) != 0 && b.dataOff !in w.unreadable && b.dataOff in w.disk
    requires LeavesAll(w, a, m, NodeOf(b), |Entries(w.disk, NodeOf(b))|,
               CheckOk(w.hs, b.methods, b.check, w.disk[b.dataOff]) || w.opts.force)
    ensures Leaves(w, a, m, b, true)
  {
    hide Walk, WalkFirst, Lies, SpoilsBelow, SpoilsHere;
    var n := NodeOf(b);
    forall c ensures LeavesOn(w, a, m, b, true, c) {
      assert LeavesAllOn(w, a, m, n, |Entries(w.disk, n)|,
        CheckOk(w.hs, b.methods, b.check, w.disk[b.dataOff]) || w.opts.force, c);
    }
  }

  /** A miss, after which a good block is cached. */
  lemma AddLeaves(w: World, a: Memo, m: Memo, b: Bref, d: Delta, full: bool)
    requires w.Valid() && w.Has(b)
    requires if full then Leaves(w, a, m, b, full) && (Truthful(w, a) ==> Walk(w, b, false).Good?)
             else a == m && Walk(w, b, true).Good? && Single(w.opts)
    ensures Leaves(w, a, Appended(m, b, d), b, full)
  {
    hide Spoils, Truthful, Cached;
    AppendedKeeps(w, m, b, d);
    forall c ensures LeavesOn(w, a, Appended(m, b, d), b, full, c) {
      assert full ==> LeavesOn(w, a, m, b, full, c);
      AddedLie(w, m, b, d, c);
    }
  }

  lemma AddedLie(w: World, m: Memo, b: Bref, d: Delta, c: Bref)
    requires w.Valid() && w.Has(b)
    ensures Lies(w, Appended(m, b, d), c) <==> Lies(w, m, c) || (c == b && Walk(w, b, false).Bad?)
  {
    hide Walk, Cached;
    AppendedCached(m, b, d, c);
  }

  /** Before the first child. */
  lemma LeavesStart(w: World, a: Memo, n: Node, full: bool)
    requires w.Valid() && n in w.g.nodes
    ensures LeavesAll(w, a, a, n, 0, full) && Reached(w, n, 0) && WalkFirst(w, n, 0) == Good(ZeroDelta)
    ensures Sound(w, a) ==> Truthful(w, a)
  {
    SoundTruthful(w, a);
    hide Lies;
    forall c ensures LeavesAllOn(w, a, a, n, 0, full, c) {}
  }

  /** Good children leave the cache as it was. */
  lemma GoodSoFar(w: World, a: Memo, m: Memo, n: Node, k: nat)
    requires w.Valid() && n in w.g.nodes && k <= |Entries(w.disk, n)| && LeavesAll(w, a, m, n, k, true)
    ensures Truthful(w, a) && WalkFirst(w, n, k).Good? ==> Truthful(w, m)
  {
    hide Lies, SpoilsBelow;
    if Truthful(w, a) && WalkFirst(w, n, k).Good? {
      forall c ensures !Lies(w, m, c) {
        assert LeavesAllOn(w, a, m, n, k, true, c);
        FirstSpoilsNone(w, n, k, c);
      }
    }
  }

  /** A child that was looked at, whatever the verdict. */
  lemma LeavesNext(w: World, a: Memo, m: Memo, r: Memo, n: Node, k: nat, full: bool)
    requires w.Valid() && n in w.g.nodes && k < |Entries(w.disk, n)|
    requires LeavesAll(w, a, m, n, k, full) && Leaves(w, m, r, Entry(w, n, k), full)
    requires if full then Truthful(w, a) ==> WalkFirst(w, n, k).Good? else Reached(w, n, k)
    ensures LeavesAll(w, a, r, n, k + 1, full)
  {
    hide Walk, WalkFirst, Lies, Spoils, SpoilsBelow, SpoilsHere, HalfGood, Reached, Truthful;
    if full { GoodSoFar(w, a, m, n, k); }
    var next := k + 1;
    forall c ensures LeavesAllOn(w, a, r, n, next, full, c) {
      assert LeavesAllOn(w, a, m, n, k, full, c) && LeavesOn(w, m, r, Entry(w, n, k), full, c);
      if !full {
        HereNext(w, n, k, c);
      } else if Truthful(w, a) {
        BelowNext(w, n, k, c);
      }
    }
  }

  /** A child that stops the loop. */
  lemma LeavesStop(w: World, a: Memo, m: Memo, n: Node, k: nat, full: bool)
    requires w.Valid() && n in w.g.nodes && k < |Entries(w.disk, n)|
    requires LeavesAll(w, a, m, n, k + 1, full)
    requires if full then Truthful(w, a) ==> WalkFirst(w, n, k + 1).Bad?
             else Reached(w, n, k) && !Walk(w, Entry(w, n, k), true).Good?
    ensures LeavesAll(w, a, m, n, |Entries(w.disk, n)|, full)
  {
    hide Walk, WalkFirst, Lies, Spoils, SpoilsBelow, SpoilsHere, HalfGood, Reached, Truthful;
    var all := |Entries(w.disk, n)|;
    forall c ensures LeavesAllOn(w, a, m, n, all, full, c) {
      assert LeavesAllOn(w, a, m, n, k + 1, full, c);
      if !full {
        HereStops(w, n, k, all, c);
        HereStops(w, n, k, k + 1, c);
      } else if Truthful(w, a) {
        BelowStops(w, n, k, all, c);
      }
    }
  }

  lemma ForcedWalk(w: World, b: Bref)
    requires w.Valid() && w.Has(b)
    ensures w.opts.force ==> Walk(w, b, true) == Walk(w, b, false)
  {}

  /** The walk of a tree from a zone leaves a half good block behind. */
  ghost predicate ZoneSpoils(w: World, t: BrefType, z: nat)
    requires w.Valid() && IsHeaderType(t) && ZonesIn(w.g, w.size) && Begins(w.size, z)
  {
    RootHas(w, t, z);
    exists c :: Spoils(w, RootBref(t, z), c)
  }

  /** Every half good child that the walk from a zone comes to passes for good. */
  ghost predicate ZoneLies(w: World, memo: Memo, t: BrefType, z: nat)
    requires w.Valid() && IsHeaderType(t) && ZonesIn(w.g, w.size) && Begins(w.size, z)
  {
    RootHas(w, t, z);
    forall c :: Spoils(w, RootBref(t, z), c) ==> Lies(w, memo, c)
  }

  lemma ZoneLeaves(w: World, a: Memo, m: Memo, t: BrefType, z: nat)
    requires w.Valid() && IsHeaderType(t) && ZonesIn(w.g, w.size) && Begins(w.size, z)
    requires w.Has(RootBref(t, z)) && Leaves(w, a, m, RootBref(t, z), true)
    ensures Truthful(w, m) ==> Truthful(w, a)
    ensures Truthful(w, a) ==> (Truthful(w, m) <==> !(Single(w.opts) && ZoneSpoils(w, t, z)))
    ensures Truthful(w, a) && Single(w.opts) ==> ZoneLies(w, m, t, z)
    ensures forall y: nat :: Begins(w.size, y) && ZoneLies(w, a, t, y) ==> ZoneLies(w, m, t, y)
  {
    hide Lies, Spoils;
    var b := RootBref(t, z);
    forall c
      ensures Lies(w, a, c) ==> Lies(w, m, c)
      ensures Truthful(w, a) ==> (Lies(w, m, c) <==> Single(w.opts) && Spoils(w, b, c))
    {
      assert LeavesOn(w, a, m, b, true, c);
    }
  }
}
