/** `fsck`: the walk that caches the statistics of subtrees it has already verified. */
module Fsck {
  import opened Media
  import opened FsckWalk
  import opened FsckTotals
  import opened FsckMemo

  /** Running totals (`blockref_stats_t`).  `u0..u3` are the words of a union: inode,
      indirect, data and dirent for a volume; node and leaf for a freemap. */
  datatype Stats = Stats(stype: BrefType, blockref: nat, empty: nat, bytes: nat, u0: nat, u1: nat, u2: nat, u3: nat)

  const ZeroStats := Stats(Volume, 0, 0, 0, 0, 0, 0, 0)

  /** `load_delta_stats`. */
  function Load(s: Stats, d: Delta): Stats {
    var t := s.(blockref := s.blockref + d.blockref, empty := s.empty + d.empty, bytes := s.bytes + d.bytes);
    if s.stype == Volume then
      t.(u0 := s.u0 + d.inode, u1 := s.u1 + d.indirect, u2 := s.u2 + d.data, u3 := s.u3 + d.dirent)
    else
      t.(u0 := s.u0 + d.node, u1 := s.u1 + d.leaf)
  }

  class Checker {
    const w: World
    var bstats: Stats
    var droot: Memo

    constructor (w: World)
      requires w.Valid()
      ensures this.w == w && droot == map[]
    {
      this.w := w;
      bstats := ZeroStats;
      droot := map[];
    }

    /** Count a blockref by its type, before its block is read. */
    method Count(bref: Bref) returns (ds: Delta)
      modifies this`bstats
      ensures ds == Own(w.opts, bref).(bytes := 0, count := 0)
      ensures Fits(bstats.stype, bref.btype) && !bref.btype.Invalid? && IsHeaderType(bstats.stype) ==>
        bstats == Load(old(bstats), ds)
      ensures bstats.stype == old(bstats).stype
      ensures !bref.btype.Invalid? ==> OnceByType(w.opts, bref, ds)
      ensures bref.btype in {Inode, Indirect, Data, Dirent} ==> bstats == old(bstats).(
        blockref := old(bstats).blockref + 1,
        u0 := old(bstats).u0 + OfType(Inode)(bref), u1 := old(bstats).u1 + OfType(Indirect)(bref),
        u2 := old(bstats).u2 + OfType(Data)(bref), u3 := old(bstats).u3 + OfType(Dirent)(bref))
      ensures bref.btype in {FreemapNode, FreemapLeaf} ==> bstats == old(bstats).(
        blockref := old(bstats).blockref + 1,
        u0 := old(bstats).u0 + OfType(FreemapNode)(bref), u1 := old(bstats).u1 + OfType(FreemapLeaf)(bref))
    {
      ds := ZeroDelta.(blockref := 1);
      bstats := bstats.(blockref := bstats.blockref + 1);
      match bref.btype {
        case Empty =>
          if w.opts.countEmpty {
            bstats := bstats.(empty := bstats.empty + 1);
            ds := ds.(empty := 1);
          } else {
            bstats := bstats.(blockref := bstats.blockref - 1);
            ds := ds.(blockref := 0);
          }
        case Inode => bstats := bstats.(u0 := bstats.u0 + 1); ds := ds.(inode := 1);
        case Indirect => bstats := bstats.(u1 := bstats.u1 + 1); ds := ds.(indirect := 1);
        case Data => bstats := bstats.(u2 := bstats.u2 + 1); ds := ds.(data := 1);
        case Dirent => bstats := bstats.(u3 := bstats.u3 + 1); ds := ds.(dirent := 1);
        case FreemapNode => bstats := bstats.(u0 := bstats.u0 + 1); ds := ds.(node := 1);
        case FreemapLeaf => bstats := bstats.(u1 := bstats.u1 + 1); ds := ds.(leaf := 1);
        case Volume => bstats := bstats.(blockref := bstats.blockref - 1); ds := ds.(blockref := 0);
        case Freemap => bstats := bstats.(blockref := bstats.blockref - 1); ds := ds.(blockref := 0);
        case Invalid(_) =>
      }
    }

    /** Count the bytes of a block that was read; the tool asserts that an uncounted
        empty blockref names no block. */
    method CountBytes(bref: Bref, d: Delta) returns (ds: Delta)
      requires w.Has(bref) && d == Own(w.opts, bref).(bytes := 0, count := 0)
      modifies this`bstats
      ensures ds == Own(w.opts, bref).(count := 0)
      ensures forall s :: old(bstats) == Load(s, d) ==> bstats == Load(s, ds)
      ensures bstats.stype == old(bstats).stype
    {
      var bytes := MediaBytes(bref.dataOff);
      ds := d;
      if bref.btype != Volume && bref.btype != Freemap {
        bstats := bstats.(bytes := bstats.bytes + bytes);
        ds := ds.(bytes := bytes);
      }
      if !w.opts.countEmpty && bref.btype == Empty {
        assert bytes == 0;
      }
    }

    /** The first cached entry for exactly this blockref. */
    method FindCached(bref: Bref) returns (hit: bool, ds: Delta)
      requires w.Valid() && Usable()
      ensures hit <==> bref.dataOff != 0 && Cached(droot, bref)
      ensures hit ==> w.Has(bref) && Walk(w, bref, true).Good?
      ensures hit && Sound(w, droot) ==> Walk(w, bref, false) == Good(ds)
      ensures hit && Truthful(w, droot) ==> Walk(w, bref, false).Good?
    {
      hit, ds := false, ZeroDelta;
      if bref.dataOff == 0 || bref.dataOff !in droot {
        return;
      }
      var list := droot[bref.dataOff];
      for i := 0 to |list|
        invariant forall j :: 0 <= j < i ==> list[j].bref != bref
      {
        if list[i].bref == bref {
          assert Cached(droot, bref) && (Truthful(w, droot) ==> !Lies(w, droot, bref));
          return true, list[i].delta;
        }
      }
    }

    /** Append a subtree to the cache. */
    method AddCached(bref: Bref, ds: Delta)
      requires w.Valid() && w.Has(bref) && Walk(w, bref, true).Good? && WeaklySound(w, droot)
      modifies this`droot
      ensures WeaklySound(w, droot) && Cached(droot, bref)
      ensures old(Sound(w, droot)) && Walk(w, bref, false) == Good(ds) ==> Sound(w, droot)
      ensures droot == Appended(old(droot), bref, ds)
    {
      var list := if bref.dataOff in droot then droot[bref.dataOff] else [];
      AppendedKeeps(w, droot, bref, ds);
      droot := droot[bref.dataOff := list + [CacheEntry(bref, ds)]];
    }

    /** What a walk needs of the cache whatever happened before it. */
    ghost predicate Usable()
      requires w.Valid()
      reads this
    {
      WeaklySound(w, droot) && (w.opts.force ==> Sound(w, droot))
    }

    /** A run may leave half-verified subtrees in the cache only when it failed, is not
        forced, and caches subtrees of a single block. */
    ghost predicate MemoKept(ok: bool, norecurse: bool)
    {
      (ok && !norecurse) || w.opts.force || w.opts.cacheCount != 1
    }

    /** The walk of `bref` looks below it. */
    predicate Full(norecurse: bool) { !norecurse || w.opts.force }

    /** The running totals can be compared with the statistics of blocks of type `t`. */
    ghost predicate Comparable(stype: BrefType, t: BrefType)
      requires w.Valid()
    {
      IsHeaderType(stype) && Fits(stype, t) && WellTyped(w, stype)
    }

    method VerifyBlockref(bref: Bref, norecurse: bool) returns (ok: bool, ds: Delta)
      requires w.Valid() && w.Has(bref)
      requires Usable()
      modifies this
      ensures Usable()
      ensures old(Sound(w, droot)) && MemoKept(ok, norecurse) ==> Sound(w, droot)
      ensures Leaves(w, old(droot), droot, bref, Full(norecurse))
      ensures bref.dataOff != 0 && old(Cached(droot, bref)) ==> ok
      ensures ok ==> Walk(w, bref, true).Good?
      ensures ok && bref.dataOff != 0 && w.opts.cacheCount == 1 ==> Cached(droot, bref)
      ensures old(Truthful(w, droot)) || !Full(norecurse) ==> ok == Walk(w, bref, norecurse).Good?
      ensures old(Sound(w, droot)) && ok && Full(norecurse) ==> ds == Walk(w, bref, false).delta
      ensures old(Sound(w, droot)) && ok && Full(norecurse) && Comparable(old(bstats).stype, bref.btype) ==>
        bstats == Load(old(bstats), ds)
      ensures bstats.stype == old(bstats).stype
      decreases if Radix(bref.dataOff) == 0 then 0 else w.g.rank(NodeOf(bref)) + 1, 2
    {
      hide Spoils, HalfGood, WeaklySound, Sound, Truthful, Comparable;
      SoundTruthful(w, droot);
      ok, ds := FindCached(bref);
      if ok {
        bstats := Load(bstats, ds);
        HitLeaves(w, droot, bref, Full(norecurse));
        return;
      }
      ok, ds := VerifyMedia(bref, norecurse);
      if ok && bref.dataOff != 0 && w.opts.cacheCount > 0 && ds.count >= w.opts.cacheCount {
        assert MediaBytes(bref.dataOff) != 0;
        AddLeaves(w, old(droot), droot, bref, ds, Full(norecurse));
        AddCached(bref, ds);
      } else if !Full(norecurse) {
        AloneLeaves(w, droot, bref);
      }
    }

    /** The verification proper, after the cache lookup missed. */
    method VerifyMedia(bref: Bref, norecurse: bool) returns (ok: bool, ds: Delta)
      requires w.Valid() && w.Has(bref)
      requires Usable()
      modifies this
      ensures Usable()
      ensures old(Sound(w, droot)) && MemoKept(ok, norecurse) ==> Sound(w, droot)
      ensures if Full(norecurse) then Leaves(w, old(droot), droot, bref, true) else droot == old(droot)
      ensures ok ==> Walk(w, bref, true).Good? && ds.count >= 1
      ensures old(Truthful(w, droot)) || !Full(norecurse) ==> ok == Walk(w, bref, norecurse).Good?
      ensures (old(Sound(w, droot)) || !Full(norecurse)) && ok ==> ds == Walk(w, bref, norecurse).delta
      ensures old(Sound(w, droot)) && ok && Comparable(old(bstats).stype, bref.btype) ==>
        bstats == Load(old(bstats), ds)
      ensures bstats.stype == old(bstats).stype
      decreases if Radix(bref.dataOff) == 0 then 0 else w.g.rank(NodeOf(bref)) + 1, 1
    {
      hide WeaklySound, Sound, Truthful, LeavesAll, Leaves, CheckOk,
        Walk, WalkFirst, Own, Add, Load;
      WalkOne(w, bref, norecurse);
      WalkOne(w, bref, true);
      ForcedWalk(w, bref);
      SoundTruthful(w, droot);
      ds := Count(bref);
      var failed := bref.btype.Invalid?;
      var bytes := MediaBytes(bref.dataOff);
      if bytes == 0 || bref.dataOff in w.unreadable {
        ShortLeaves(w, droot, bref);
      }
      if bytes != 0 && bref.dataOff in w.unreadable {
        return false, ds;
      }
      ds := CountBytes(bref, ds);
      var kids := ZeroDelta;
      if bytes != 0 {
        BlockHas(w, bref);
        var media := w.disk[bref.dataOff];
        failed := failed || !CheckOk(w.hs, bref.methods, bref.check, media);
        if Full(norecurse) {
          var allOk;
          allOk, kids := VerifyChildren(NodeOf(bref), Scan(bref.btype, media), failed);
          BlockLeaves(w, old(droot), droot, bref);
          if !allOk {
            return false, ds;
          }
          LoadAdd(old(bstats), ds, kids);
          if !failed {
            ds := Add(ds, kids);
          }
        }
      }
      ok := !failed;
      if ok {
        Finish(old(bstats), Own(w.opts, bref), kids);
        ds := ds.(count := ds.count + 1);
      }
    }

    /** The blockrefs of one block, in order, stopping at the first that is bad. */
    method VerifyChildren(n: Node, bscan: seq<Bref>, failed: bool) returns (ok: bool, ds: Delta)
      requires w.Valid() && n in w.g.nodes && bscan == Entries(w.disk, n)
      requires Usable()
      modifies this
      ensures Usable()
      ensures old(Sound(w, droot)) && MemoKept(ok, failed) ==> Sound(w, droot)
      ensures LeavesAll(w, old(droot), droot, n, |bscan|, Full(failed))
      ensures old(Truthful(w, droot)) && Full(failed) ==> ok == WalkFirst(w, n, |bscan|).Good?
      ensures old(Sound(w, droot)) && ok && !failed ==> ds == WalkFirst(w, n, |bscan|).delta
      ensures old(Sound(w, droot)) && ok && !failed && Comparable(old(bstats).stype, n.btype) ==>
        bstats == Load(old(bstats), ds)
      ensures bstats.stype == old(bstats).stype
      decreases w.g.rank(n) + 1, 0
    {
      hide Walk, WalkFirst, Truthful, Sound, WeaklySound, Reached, LeavesAll, Leaves;
      ghost var sound, truthful := Sound(w, droot), Truthful(w, droot);
      LeavesStart(w, droot, n, Full(failed));
      ok, ds := true, ZeroDelta;
      var i := 0;
      while i < |bscan|
        invariant 0 <= i <= |bscan| && ok
        invariant Usable()
        invariant sound && MemoKept(true, failed) ==> Sound(w, droot)
        invariant LeavesAll(w, old(droot), droot, n, i, Full(failed))
        invariant truthful && Full(failed) ==> WalkFirst(w, n, i).Good?
        invariant !Full(failed) ==> Reached(w, n, i)
        invariant sound && !failed ==> ds == WalkFirst(w, n, i).delta
        invariant bstats.stype == old(bstats).stype
        invariant sound && !failed && Comparable(old(bstats).stype, n.btype) ==> bstats == Load(old(bstats), ds)
      {
        ghost var before := droot;
        assert Entry(w, n, i) == bscan[i];
        if Full(failed) { GoodSoFar(w, old(droot), droot, n, i); } else { ReachedNext(w, n, i); }
        FirstNext(w, n, i, bscan[i]);
        ForcedWalk(w, bscan[i]);
        var d;
        ok, d := VerifyBlockref(bscan[i], failed);
        LeavesNext(w, old(droot), before, droot, n, i, Full(failed));
        if !ok {
          LeavesStop(w, old(droot), droot, n, i, Full(failed));
          if truthful && Full(failed) {
            WalkFirstBad(w, n, i, |bscan|);
          }
          return;
        }
        if !failed {
          LoadAdd(old(bstats), ds, d);
          ds := Add(ds, d);
        }
        i := i + 1;
      }
    }

    /** Verify one of the trees of a zone, with fresh totals. */
    method VerifyZone(t: BrefType, z: nat) returns (ok: bool)
      requires w.Valid() && IsHeaderType(t) && ZonesIn(w.g, w.size) && Begins(w.size, z) && Usable()
      modifies this
      ensures Usable() && (Truthful(w, droot) ==> old(Truthful(w, droot)))
      ensures old(Truthful(w, droot)) ==> ok == ZoneWalk(w, t, z).Good?
      ensures old(Truthful(w, droot)) ==> (Truthful(w, droot) <==> !(Single(w.opts) && ZoneSpoils(w, t, z)))
      ensures old(Truthful(w, droot)) && Single(w.opts) ==> ZoneLies(w, droot, t, z)
      ensures forall y: nat :: Begins(w.size, y) && old(ZoneLies(w, droot, t, y)) ==> ZoneLies(w, droot, t, y)
      ensures old(Sound(w, droot)) && ok ==> Sound(w, droot)
      ensures old(Sound(w, droot)) && ok && WellTyped(w, t) ==>
        bstats == Load(ZeroStats.(stype := t), ZoneWalk(w, t, z).delta)
    {
      RootHas(w, t, z);
      SoundTruthful(w, droot);
      bstats := ZeroStats.(stype := t);
      var ds;
      ok, ds := VerifyBlockref(RootBref(t, z), false);
      ZoneLeaves(w, old(droot), droot, t, z);
    }

    /** Verify one of the two trees from every zone that the volume has (or only the best
        one), sharing the cache between zones.  The verdict is that of the uncached walks
        whatever the threshold, even after a zone failed; and the cache ends with a bad
        subtree in it exactly when single blocks are cached and a walk came to a half good
        child of a failed block; it then vouches for all those of the first such zone. */
    method TestBlockref(t: BrefType, bestOnly: bool, bestZone: int)
      returns (failed: bool, totals: map<nat, Stats>)
      requires w.Valid() && IsHeaderType(t) && ZonesIn(w.g, w.size)
      modifies this
      ensures failed <==> exists z: nat :: Scanned(z, bestOnly, bestZone, w.size) && ZoneWalk(w, t, z).Bad?
      ensures forall z: nat :: z in totals <==> Scanned(z, bestOnly, bestZone, w.size)
      ensures !failed && WellTyped(w, t) ==> forall z: nat :: Scanned(z, bestOnly, bestZone, w.size) ==>
        totals[z] == Load(ZeroStats.(stype := t), ZoneWalk(w, t, z).delta)
      ensures Truthful(w, droot) <==>
        !(Single(w.opts) && exists z: nat :: Scanned(z, bestOnly, bestZone, w.size) && ZoneSpoils(w, t, z))
      ensures Usable() && (Single(w.opts) ==> forall z: nat ::
        SpoiledFirst(w, t, z, bestOnly, bestZone) ==> ZoneLies(w, droot, t, z))
      ensures failed <==> Flawed(w, t, bestOnly, bestZone)
      ensures !failed && WellTyped(w, t) ==> AllCounted(w, totals, t, bestOnly, bestZone)
    {
      hide Flawed, AllCounted, Load, Walk, ZoneWalk, WellFormed, WellTyped, Truthful, Sound, WeaklySound, Spoils, ZoneSpoils, ZoneLies;
      droot := map[];
      EmptyMemo(w);
      failed, totals := false, map[];
      ghost var bad, spoiler := 0, 0;
      for i := 0 to HAMMER2_NUM_VOLHDRS
        invariant Usable() && (!failed ==> Sound(w, droot))
        invariant forall z: nat :: z in totals <==> z < i && Scanned(z, bestOnly, bestZone, w.size)
        invariant failed ==> bad in totals && ZoneWalk(w, t, bad).Bad?
        invariant !failed ==> forall z: nat :: z in totals ==> TotalOk(totals[z], ZoneWalk(w, t, z), t, WellTyped(w, t))
        invariant !Truthful(w, droot) ==> Single(w.opts) && spoiler in totals && ZoneSpoils(w, t, spoiler)
        invariant !Truthful(w, droot) ==> ZoneLies(w, droot, t, spoiler)
        invariant Single(w.opts) ==> forall z: nat :: z in totals && (Truthful(w, droot) || z < spoiler) ==>
          !ZoneSpoils(w, t, z)
      {
        if bestOnly && i != bestZone {
          assert !Scanned(i, bestOnly, bestZone, w.size);
          continue;
        }
        if ZoneOff(i) >= w.size {
          assert forall z: nat :: i <= z ==> !Scanned(z, bestOnly, bestZone, w.size);
          break;
        }
        ghost var before := droot;
        SoundTruthful(w, droot);
        var ok := VerifyZone(t, i);
        if !Truthful(w, droot) && Truthful(w, before) {
          spoiler := i;
        }
        totals := totals[i := bstats];
        if !ok {
          if !failed { bad := i; }
          failed := true;
        }
      }
      FlawedIff(w, t, bestOnly, bestZone);
      if !failed { CountedAll(w, totals, t, bestOnly, bestZone); }
    }
  }

  ghost predicate TotalOk(s: Stats, walk: Walked, t: BrefType, typed: bool) {
    walk.Good? && (typed ==> s == Load(ZeroStats.(stype := t), walk.delta))
  }

  /** The totals of a zone are the numbers of blockrefs of each type met along all paths from its
      header, and the sum of the sizes of their blocks. */
  ghost predicate Counted(w: World, s: Stats, t: BrefType, z: nat)
    requires w.Valid() && IsHeaderType(t) && ZonesIn(w.g, w.size) && Begins(w.size, z)
  {
    && s.stype == t && s.blockref == ZoneTotal(w, Blockrefs(w.opts.countEmpty), t, z)
    && s.empty == (if w.opts.countEmpty then ZoneTotal(w, OfType(Empty), t, z) else 0)
    && s.bytes == ZoneTotal(w, Sizes(), t, z)
    && if t == Volume then
         && s.u0 == ZoneTotal(w, OfType(Inode), t, z) && s.u1 == ZoneTotal(w, OfType(Indirect), t, z)
         && s.u2 == ZoneTotal(w, OfType(Data), t, z) && s.u3 == ZoneTotal(w, OfType(Dirent), t, z)
       else
         && s.u0 == ZoneTotal(w, OfType(FreemapNode), t, z) && s.u1 == ZoneTotal(w, OfType(FreemapLeaf), t, z)
         && s.u2 == 0 && s.u3 == 0
  }

  lemma TotalCounted(w: World, s: Stats, t: BrefType, z: nat)
    requires w.Valid() && IsHeaderType(t) && ZonesIn(w.g, w.size) && Begins(w.size, z)
    requires TotalOk(s, ZoneWalk(w, t, z), t, WellTyped(w, t))
    ensures WellTyped(w, t) ==> Counted(w, s, t, z)
  {
    hide OfType, Blockrefs, Sizes, Walk, Total, WellTyped;
    RootHas(w, t, z);
    WalkTallies(w, RootBref(t, z));
  }

  /** In one of the zones that a run looks at, something is wrong on some path. */
  ghost predicate Flawed(w: World, t: BrefType, bestOnly: bool, bestZone: int)
    requires w.Valid() && IsHeaderType(t) && ZonesIn(w.g, w.size)
  {
    exists z: nat :: Scanned(z, bestOnly, bestZone, w.size) && ZoneTotal(w, Flaws(w), t, z) > 0
  }

  /** The totals of every zone that a run looks at are right. */
  ghost predicate AllCounted(w: World, totals: map<nat, Stats>, t: BrefType, bestOnly: bool, bestZone: int)
    requires w.Valid() && IsHeaderType(t) && ZonesIn(w.g, w.size)
  {
    forall z: nat :: Scanned(z, bestOnly, bestZone, w.size) ==> z in totals && Counted(w, totals[z], t, z)
  }

  lemma FlawedIff(w: World, t: BrefType, bestOnly: bool, bestZone: int)
    requires w.Valid() && IsHeaderType(t) && ZonesIn(w.g, w.size)
    ensures Flawed(w, t, bestOnly, bestZone) <==>
      exists z: nat :: Scanned(z, bestOnly, bestZone, w.size) && ZoneWalk(w, t, z).Bad?
  {
    hide ZoneWalk, ZoneTotal, Flaws;
    forall z: nat | Scanned(z, bestOnly, bestZone, w.size)
      ensures ZoneWalk(w, t, z).Good? <==> ZoneTotal(w, Flaws(w), t, z) == 0
    {
      ZoneFlaws(w, t, z);
    }
  }

  lemma CountedAll(w: World, totals: map<nat, Stats>, t: BrefType, bestOnly: bool, bestZone: int)
    requires w.Valid() && IsHeaderType(t) && ZonesIn(w.g, w.size)
    requires forall z: nat :: Scanned(z, bestOnly, bestZone, w.size) ==>
      z in totals && TotalOk(totals[z], ZoneWalk(w, t, z), t, WellTyped(w, t))
    ensures WellTyped(w, t) ==> AllCounted(w, totals, t, bestOnly, bestZone)
  {
    hide WellTyped, TotalOk, Counted, ZoneWalk;
    forall z: nat | Scanned(z, bestOnly, bestZone, w.size) ensures WellTyped(w, t) ==> Counted(w, totals[z], t, z) {
      TotalCounted(w, totals[z], t, z);
    }
  }

  /** The first zone that a run looks at whose walk leaves a half good block behind. */
  ghost predicate SpoiledFirst(w: World, t: BrefType, z: nat, bestOnly: bool, bestZone: int)
    requires w.Valid() && IsHeaderType(t) && ZonesIn(w.g, w.size)
  {
    && Scanned(z, bestOnly, bestZone, w.size) && ZoneSpoils(w, t, z)
    && forall y: nat :: y < z && Scanned(y, bestOnly, bestZone, w.size) ==> !ZoneSpoils(w, t, y)
  }

  /** The zones a run looks at. */
  predicate Scanned(z: int, bestOnly: bool, bestZone: int, size: nat) {
    0 <= z < HAMMER2_NUM_VOLHDRS && (bestOnly ==> z == bestZone) && ZoneOff(z) < size
  }

  /** The final increment of `count`. */
  lemma Finish(s: Stats, own: Delta, kids: Delta)
    requires own.count == 1
    ensures var d := Add(own.(count := 0), kids); d.(count := d.count + 1) == Add(own, kids)
    ensures Add(own, ZeroDelta) == own && Add(own.(count := 0), ZeroDelta) == own.(count := 0)
    ensures Load(s, Add(own.(count := 0), kids)) == Load(s, Add(own, kids))
  {}

  lemma LoadAdd(s: Stats, d: Delta, e: Delta)
    ensures Load(Load(s, d), e) == Load(s, Add(d, e))
  {}
}
