/** Repair and verification agree: a volume that `reconstruct -f` has repaired is exactly
    one that `fsck` accepts. */
module RepairVerify {
  import opened Media
  import opened Repair
  import opened FsckWalk
  import Reconstruct

  /** Both tools mean the same by a good block. */
  lemma {:induction false} WalkGoodIffClean(w: World, b: Bref)
    requires w.Valid() && w.unreadable == {} && w.Has(b) && Radix(b.dataOff) != 0
    ensures Walk(w, b, false).Good? <==>
      b.dataOff in w.disk && CheckOk(w.hs, b.methods, b.check, w.disk[b.dataOff]) && Clean(w.hs, w.disk, w.g, NodeOf(b))
    decreases w.g.rank(NodeOf(b)) + 1, 2
  {
    var n := NodeOf(b);
    assert NodeOk(w.disk, w.g, n);
    WalkFirstGoodIffClean(w, n, |Entries(w.disk, n)|);
    assert Walk(w, b, false).Good? <==>
      CheckOk(w.hs, b.methods, b.check, w.disk[b.dataOff]) && WalkFirst(w, n, |Entries(w.disk, n)|).Good?;
    CleanIffGood(w.hs, w.disk, w.g, n);
  }

  lemma {:induction false} WalkFirstGoodIffClean(w: World, n: Node, k: nat)
    requires w.Valid() && w.unreadable == {} && n in w.g.nodes && k <= |Entries(w.disk, n)|
    ensures WalkFirst(w, n, k).Good? <==> AllGood(w.hs, w.disk, w.g, n, k)
    decreases w.g.rank(n) + 1, 1, k
  {
    if k > 0 {
      WalkFirstGoodIffClean(w, n, k - 1);
      EntryGoodIffClean(w, n, k - 1);
      assert AllGood(w.hs, w.disk, w.g, n, k) <==>
        AllGood(w.hs, w.disk, w.g, n, k - 1) && GoodAt(w.hs, w.disk, w.g, n, k - 1);
    }
  }

  lemma {:induction false} EntryGoodIffClean(w: World, n: Node, i: nat)
    requires w.Valid() && w.unreadable == {} && n in w.g.nodes && i < |Entries(w.disk, n)|
    ensures w.Has(Entries(w.disk, n)[i])
    ensures Walk(w, Entries(w.disk, n)[i], false).Good? <==> GoodAt(w.hs, w.disk, w.g, n, i)
    decreases w.g.rank(n) + 1, 0
  {
    ChildHas(w, n, i);
    var e := Entries(w.disk, n)[i];
    assert NodeOk(w.disk, w.g, n) && EntryOk(w.g, n, e);
    if Radix(e.dataOff) != 0 {
      WalkGoodIffClean(w, e);
      assert NodeOk(w.disk, w.g, NodeOf(e));
    }
  }

  /** `verify_volume_header`. */
  predicate VerifyVolumeHeader(hs: Hashes, h: Header) {
    && MagicOk(h)
    && h.icrcSect0 == hs.crcSect0(h.magic, h.sector0, h.icrcSect1)
    && h.icrcSect1 == hs.crcSect1(h.sroot)
    && h.icrcVolheader == hs.crcVolheader(h.(icrcVolheader := 0))
  }

  /** `fsck` accepts both trees and the header of every zone that the volume has. */
  ghost predicate Accepted(w: World)
    requires w.Valid() && ZonesIn(w.g, w.size)
  {
    forall z: nat {:trigger Begins(w.size, z)} :: Begins(w.size, z) ==>
      && ZoneWalk(w, Freemap, z).Good? && ZoneWalk(w, Volume, z).Good?
      && ZoneNode(Volume, z).off in w.disk && w.disk[ZoneNode(Volume, z).off].HeaderBlock?
      && VerifyVolumeHeader(w.hs, w.disk[ZoneNode(Volume, z).off].head)
  }

  lemma ZoneGoodIffClean(w: World, t: BrefType, z: nat)
    requires w.Valid() && w.unreadable == {} && IsHeaderType(t) && ZonesIn(w.g, w.size) && Begins(w.size, z)
    ensures ZoneWalk(w, t, z).Good? <==> Clean(w.hs, w.disk, w.g, ZoneNode(t, z))
  {
    RootHas(w, t, z);
    WalkGoodIffClean(w, RootBref(t, z));
    assert NodeOk(w.disk, w.g, ZoneNode(t, z));
  }

  /** Repair, then verify: what a completed forced run leaves is what `fsck` accepts, and
      nothing else is. */
  lemma RepairedIffAccepted(w: World)
    requires w.Valid() && w.unreadable == {} && ZonesIn(w.g, w.size)
    ensures Reconstruct.Repaired(w.hs, w.disk, w.g, w.size) && Reconstruct.MagicsOk(w.disk, w.size) <==> Accepted(w)
  {
    forall z: nat | Begins(w.size, z)
      ensures ZoneWalk(w, Freemap, z).Good? <==> Clean(w.hs, w.disk, w.g, ZoneNode(Freemap, z))
      ensures ZoneWalk(w, Volume, z).Good? <==> Clean(w.hs, w.disk, w.g, ZoneNode(Volume, z))
    {
      ZoneGoodIffClean(w, Freemap, z);
      ZoneGoodIffClean(w, Volume, z);
    }
    if Accepted(w) {
      forall z: nat | Begins(w.size, z)
        ensures Reconstruct.ZoneHeaderOk(w.hs, w.disk, z) && Reconstruct.ZoneMagicOk(w.disk, z)
      {
        assert ZoneWalk(w, Freemap, z).Good?;
      }
    }
    if Reconstruct.Repaired(w.hs, w.disk, w.g, w.size) && Reconstruct.MagicsOk(w.disk, w.size) {
      forall z: nat | Begins(w.size, z)
        ensures VerifyVolumeHeader(w.hs, w.disk[ZoneNode(Volume, z).off].head)
      {
        assert Reconstruct.ZoneHeaderOk(w.hs, w.disk, z) && Reconstruct.ZoneMagicOk(w.disk, z);
      }
    }
  }
}
