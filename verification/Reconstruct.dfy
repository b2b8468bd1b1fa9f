/** `reconstruct -f`: recompute every check code bottom-up, in place. */
module Reconstruct {
  import opened Basics
  import opened Media
  import opened Repair

  /** How a step ends.  `Mismatch` is the tool's "Blockref contents mismatch". */
  datatype Status = Ok | IoError | Mismatch

  /** The tool asserts that it never meets a SHA192 check. */
  ghost predicate Supported(disk: Disk, g: Graph)
    requires WellFormed(disk, g)
  {
    forall n, i :: n in g.nodes && 0 <= i < |Entries(disk, n)| && Follows(Entries(disk, n)[i]) ==>
      DecCheck(Entries(disk, n)[i].methods) != HAMMER2_CHECK_SHA192
  }

  lemma SupportedStable(a: Disk, b: Disk, g: Graph)
    requires WellFormed(a, g) && WellFormed(b, g) && SameButChecks(a, b) && Supported(a, g)
    ensures Supported(b, g)
  {
    forall n, i | n in g.nodes && 0 <= i < |Entries(b, n)| && Follows(Entries(b, n)[i])
      ensures DecCheck(Entries(b, n)[i].methods) != HAMMER2_CHECK_SHA192
    {
      assert NodeOk(a, g, n) && SameBlock(a[n.off], b[n.off]);
      assert SameBref(Entries(a, n)[i], Entries(b, n)[i]);
    }
  }

  /** The blockref slot a walk was entered through: entry `index` of the block at `parent`. */
  datatype Slot = Slot(parent: Node, index: nat)

  class Reconstructor {
    var disk: Disk
    const hs: Hashes
    const forceOpt: bool
    const reliable: bool  // the device never reports an I/O error
    /** The size of the root volume. */
    const size: nat
    ghost const g: Graph

    ghost predicate Valid()
      reads this
    {
      WellFormed(disk, g) && Supported(disk, g)
    }

    constructor (disk: Disk, hs: Hashes, forceOpt: bool, reliable: bool, size: nat, ghost g: Graph)
      requires WellFormed(disk, g) && Supported(disk, g)
      ensures this.disk == disk && this.hs == hs && this.g == g
      ensures this.forceOpt == forceOpt && this.reliable == reliable && this.size == size
      ensures Valid()
    {
      this.disk := disk;
      this.hs := hs;
      this.forceOpt := forceOpt;
      this.reliable := reliable;
      this.size := size;
      this.g := g;
    }

    /** Read the block a blockref names; an unreliable device may fail at any time. */
    method ReadMedia(off: nat) returns (ok: bool, block: Block)
      requires off in disk
      ensures ok ==> block == disk[off]
      ensures reliable ==> ok
    {
      ok := true;
      if !reliable {
        ok := *;
      }
      block := disk[off];
    }

    /** Write a block back; on failure nothing reached the device. */
    method WriteMedia(off: nat, block: Block) returns (ok: bool)
      requires off in disk
      modifies this`disk
      ensures disk == if ok then old(disk)[off := block] else old(disk)
      ensures reliable ==> ok
    {
      ok := true;
      if !reliable {
        ok := *;
      }
      if ok {
        disk := disk[off := block];
      }
    }

    /** The slot holds `bref`, which names a block. */
    ghost predicate SlotOk(slot: Option<Slot>, bref: Bref)
      reads this
    {
      && (slot.Some? ==>
          && slot.value.parent in g.nodes && slot.value.index < |Entries(disk, slot.value.parent)|
          && Entries(disk, slot.value.parent)[slot.value.index] == bref
          && bref.btype != Empty)
    }

    /** Compare `bref`'s check code, held in its parent's block on media, with `media`. */
    method ModifyCheck(slot: Option<Slot>, bref: Bref, media: Block) returns (r: Status)
      requires Valid() && SlotOk(slot, bref)
      requires Follows(bref) && NodeOf(bref) in g.nodes && bref.dataOff in disk && media == disk[bref.dataOff]
      modifies this`disk
      ensures Valid() && r != Mismatch && (reliable ==> r.Ok?)
      ensures Kept(hs, old(disk), disk, g)
      ensures slot.None? || !forceOpt ==> disk == old(disk)
      ensures slot.Some? && CheckOk(hs, bref.methods, bref.check, media) ==> disk == old(disk)
      ensures slot.Some? ==>
        && (forall m :: m in g.nodes && m != slot.value.parent ==> Entries(disk, m) == Entries(old(disk), m))
        && (forall d :: d in old(disk) && d != slot.value.parent.off ==> d in disk && disk[d] == old(disk)[d])
        && |Entries(disk, slot.value.parent)| == |Entries(old(disk), slot.value.parent)|
        && (forall j :: 0 <= j < |Entries(disk, slot.value.parent)| && j != slot.value.index ==>
              Entries(disk, slot.value.parent)[j] == Entries(old(disk), slot.value.parent)[j])
      ensures r.Ok? && slot.Some? && forceOpt ==>
        var e := Entries(disk, slot.value.parent)[slot.value.index];
        SameBref(e, bref) && CheckOk(hs, e.methods, e.check, media)
    {
      r := Ok;
      if slot.None? {
        return;
      }
      var p, bi := slot.value.parent, slot.value.index;
      assert NodeOk(disk, g, p);
      var ok, bscanMedia := ReadMedia(p.off);
      if !ok {
        return IoError;
      }
      var bscan := Scan(p.btype, bscanMedia)[bi];
      if bref != bscan {
        return Mismatch;
      }
      var found := false;
      var m := DecCheck(bscan.methods);
      var check := bscan.check;
      if m == HAMMER2_CHECK_ISCSI32 || m == HAMMER2_CHECK_FREEMAP {
        var cv := hs.icrc32(media);
        if check.lo != cv {
          check := check.(lo := cv);
          found := true;
        }
      } else if m == HAMMER2_CHECK_XXHASH64 {
        var cv := hs.xxh64(media);
        if (check.lo, check.hi) != cv {
          check := check.(lo := cv.0, hi := cv.1);
          found := true;
        }
      } else {
        assert m != HAMMER2_CHECK_SHA192;
      }
      if found && forceOpt {
        ghost var before := disk;
        ok := WriteMedia(p.off, PutCheck(p.btype, bscanMedia, bi, check));
        if ok {
          PatchKept(hs, before, disk, g, p, bi, check);
          SupportedStable(before, disk, g);
        } else {
          r := IoError;
        }
      }
    }

    /** Which entries a walk of `n` entered through `slot` may write: those of `n`, those
        of nodes of lower rank, and the slot itself. */
    ghost predicate Untouched(a: Disk, slot: Option<Slot>, n: Node)
      reads this
    {
      && (forall m :: m in g.nodes && m != n && g.rank(m) >= g.rank(n) && (slot.None? || m != slot.value.parent) ==>
            Entries(disk, m) == Entries(a, m))
      && (slot.Some? ==> OnlyEntry(a, slot.value.parent, slot.value.index))
    }

    ghost predicate OnlyEntry(a: Disk, p: Node, k: int)
      reads this
    {
      && |Entries(disk, p)| == |Entries(a, p)|
      && forall j :: 0 <= j < |Entries(a, p)| && j != k ==> Entries(disk, p)[j] == Entries(a, p)[j]
    }

    /** The walk of every blockref in the block `n`, read into `bscan` beforehand. */
    method ModifyChildren(n: Node, bscan: seq<Bref>) returns (r: Status)
      requires Valid() && n in g.nodes && bscan == Entries(disk, n)
      modifies this`disk
      ensures Valid() && r != Mismatch && (reliable ==> r.Ok?)
      ensures Kept(hs, old(disk), disk, g)
      ensures !forceOpt || Clean(hs, old(disk), g, n) ==> disk == old(disk)
      ensures Untouched(old(disk), None, n)
      ensures r.Ok? && forceOpt ==> Clean(hs, disk, g, n)
      decreases g.rank(n) + 1, 0
    {
      r := Ok;
      var i := 0;
      while i < |bscan|
        invariant 0 <= i <= |bscan| && r == Ok
        invariant Valid() && Kept(hs, old(disk), disk, g)
        invariant !forceOpt || Clean(hs, old(disk), g, n) ==> disk == old(disk)
        invariant Untouched(old(disk), None, n)
        invariant |Entries(disk, n)| == |bscan|
        invariant forall j :: i <= j < |bscan| ==> Entries(disk, n)[j] == bscan[j]
        invariant forceOpt ==> forall j :: 0 <= j < i ==> GoodAt(hs, disk, g, n, j)
      {
        EntryIn(disk, g, n, i);
        ghost var before := disk;
        if bscan[i].btype != Empty {
          r := ModifyBlockref(Some(Slot(n, i)), bscan[i]);
          KeptTransitive(hs, old(disk), before, disk, g);
          if r != Ok {
            return;
          }
          forall j | 0 <= j < i && forceOpt ensures GoodAt(hs, disk, g, n, j) {
            GoodKept(hs, before, disk, g, n, j);
          }
        }
        i := i + 1;
      }
      assert NodeOk(disk, g, n);
    }

    /** Recompute the check codes below `bref`, then the one that names it. */
    method ModifyBlockref(slot: Option<Slot>, bref: Bref) returns (r: Status)
      requires Valid() && SlotOk(slot, bref)
      requires Radix(bref.dataOff) != 0 ==> NodeOf(bref) in g.nodes
      requires slot.Some? ==> EntryOk(g, slot.value.parent, bref)
      modifies this`disk
      ensures Valid() && r != Mismatch && (reliable ==> r.Ok?)
      ensures Kept(hs, old(disk), disk, g)
      ensures !forceOpt || Radix(bref.dataOff) == 0 ==> disk == old(disk)
      ensures Untouched(old(disk), slot, NodeOf(bref))
      ensures NodeOf(bref) in g.nodes && slot.None? && Clean(hs, old(disk), g, NodeOf(bref)) ==> disk == old(disk)
      ensures slot.Some? && GoodAt(hs, old(disk), g, slot.value.parent, slot.value.index) ==> disk == old(disk)
      ensures r.Ok? && forceOpt && Radix(bref.dataOff) != 0 ==> Clean(hs, disk, g, NodeOf(bref))
      ensures r.Ok? && forceOpt && slot.Some? ==> GoodAt(hs, disk, g, slot.value.parent, slot.value.index)
      decreases if Radix(bref.dataOff) == 0 then 0 else g.rank(NodeOf(bref)) + 1, 1
    {
      if Radix(bref.dataOff) == 0 {
        assert slot.Some? ==> NodeOk(disk, g, slot.value.parent);
        return Ok;
      }
      var n := NodeOf(bref);
      assert NodeOk(disk, g, n);
      var ok, media := ReadMedia(bref.dataOff);
      if !ok {
        return IoError;
      }
      r := ModifyChildren(n, Scan(bref.btype, media));
      if r != Ok {
        return;
      }
      ghost var mid := disk;
      assert NodeOk(disk, g, n);
      if forceOpt {
        ok, media := ReadMedia(bref.dataOff);
        if !ok {
          return IoError;
        }
      }
      r := ModifyCheck(slot, bref, media);
      KeptTransitive(hs, old(disk), mid, disk, g);
      if r.Ok? && forceOpt {
        CleanKept(hs, mid, disk, g, n);
      }
    }

    /** Recompute the three header CRCs, section 1 first because section 0 covers its CRC. */
    method ModifyVolumeHeader(zone: nat, voldata: Header) returns (r: Status)
      requires Valid() && ZonesIn(g, size) && Begins(size, zone)
      requires ZoneNode(Volume, zone).off in disk && disk[ZoneNode(Volume, zone).off] == HeaderBlock(voldata)
      modifies this`disk
      ensures Valid() && SameButChecks(old(disk), disk)
      ensures forall n :: n in g.nodes ==> Entries(disk, n) == Entries(old(disk), n)
      ensures forall z :: 0 <= z < HAMMER2_NUM_VOLHDRS && z != zone ==>
        (ZoneHeaderOk(hs, old(disk), z) <==> ZoneHeaderOk(hs, disk, z))
      ensures !forceOpt || ZoneHeaderOk(hs, old(disk), zone) ==> disk == old(disk)
      ensures r.Ok? && forceOpt ==> ZoneHeaderOk(hs, disk, zone)
      ensures (r.Ok? ==> MagicOk(voldata)) && (reliable && MagicOk(voldata) ==> r.Ok?)
    {
      SameButChecksReflexive(disk);
      if !MagicOk(voldata) {
        return IoError;
      }
      var v, found := voldata, false;
      var crc := hs.crcSect1(v.sroot);
      if v.icrcSect1 != crc {
        if forceOpt { v := v.(icrcSect1 := crc); }
        found := true;
      }
      crc := hs.crcSect0(v.magic, v.sector0, v.icrcSect1);
      if v.icrcSect0 != crc {
        if forceOpt { v := v.(icrcSect0 := crc); }
        found := true;
      }
      crc := hs.crcVolheader(v.(icrcVolheader := 0));
      if v.icrcVolheader != crc {
        if forceOpt { v := v.(icrcVolheader := crc); }
        found := true;
      }
      assert v.(icrcVolheader := 0) == v.(icrcVolheader := crc).(icrcVolheader := 0);
      r := Ok;
      if found && forceOpt {
        assert HeaderOk(hs, v) && !HeaderOk(hs, voldata);
        HeaderPatch(hs, disk, g, size, zone, v);
        var ok := WriteMedia(ZoneNode(Volume, zone).off, HeaderBlock(v));
        if !ok {
          r := IoError;
        }
      }
    }

    /** Walk one of the trees of a zone. */
    method ReconstructZone(t: BrefType, z: nat) returns (r: Status)
      requires Valid() && IsHeaderType(t) && ZonesIn(g, size) && Begins(size, z)
      modifies this`disk
      ensures Valid() && Kept(hs, old(disk), disk, g) && r != Mismatch && (reliable ==> r.Ok?)
      ensures !forceOpt || Clean(hs, old(disk), g, ZoneNode(t, z)) ==> disk == old(disk)
      ensures r.Ok? && forceOpt ==> Clean(hs, disk, g, ZoneNode(t, z))
    {
      assert NodeOf(RootBref(t, z)) == ZoneNode(t, z);
      r := ModifyBlockref(None, RootBref(t, z));
    }

    /** Walk one of the two trees from the header of every zone. */
    method ReconstructBlockref(t: BrefType) returns (r: Status)
      requires Valid() && IsHeaderType(t) && ZonesIn(g, size)
      modifies this`disk
      ensures Valid() && Kept(hs, old(disk), disk, g) && r != Mismatch
      ensures !forceOpt || TreesClean(hs, old(disk), g, size, t) ==> disk == old(disk)
      ensures r.Ok? && forceOpt ==> TreesClean(hs, disk, g, size, t)
      ensures reliable ==> (r.Ok? <==> AllBegin(size))
      ensures !AllBegin(size) ==> r == IoError
      ensures reliable && forceOpt ==> TreesClean(hs, disk, g, size, t)
    {
      hide SameBlock, WellFormed, Clean;
      SameButChecksReflexive(disk);
      var failed := false;
      for i := 0 to HAMMER2_NUM_VOLHDRS
        invariant Valid() && Kept(hs, old(disk), disk, g)
        invariant !forceOpt || TreesClean(hs, old(disk), g, size, t) ==> disk == old(disk)
        invariant reliable ==> !failed
        invariant !failed && forceOpt ==> FirstClean(hs, disk, g, size, t, i)
        invariant i > 0 ==> Begins(size, i - 1)
      {
        if !Begins(size, i) {
          return IoError;
        }
        NodeIn(disk, g, ZoneNode(t, i));
        var ok, voldata := ReadMedia(ZoneNode(t, i).off);
        if !ok {
          return IoError;
        }
        ghost var before := disk;
        r := ReconstructZone(t, i);
        if r != Ok {
          failed := true;
        }
        KeptTransitive(hs, old(disk), before, disk, g);
        FirstKept(hs, before, disk, g, size, t, i);
      }
      r := if failed then IoError else Ok;
    }

    /** Recompute the CRCs of every zone's header. */
    method ReconstructVolumeHeader() returns (r: Status)
      requires Valid() && ZonesIn(g, size)
      modifies this`disk
      ensures Valid() && SameButChecks(old(disk), disk)
      ensures forall n :: n in g.nodes ==> Entries(disk, n) == Entries(old(disk), n)
      ensures !forceOpt || HeadersOk(hs, old(disk), size) ==> disk == old(disk)
      ensures r.Ok? && forceOpt ==> HeadersOk(hs, disk, size)
      ensures r.Ok? ==> AllBegin(size) && MagicsOk(old(disk), size)
      ensures reliable ==> (r.Ok? <==> AllBegin(size) && MagicsOk(old(disk), size))
      ensures !AllBegin(size) ==> r == IoError
    {
      hide SameBlock, NodeOk, ZoneMagicOk, MagicOk;
      SameButChecksReflexive(disk);
      var failed := false;
      for i := 0 to HAMMER2_NUM_VOLHDRS
        invariant Valid() && SameButChecks(old(disk), disk)
        invariant forall n :: n in g.nodes ==> Entries(disk, n) == Entries(old(disk), n)
        invariant !forceOpt || HeadersOk(hs, old(disk), size) ==> disk == old(disk)
        invariant !failed ==> FirstMagics(old(disk), i)
        invariant reliable && MagicsOk(old(disk), size) ==> !failed
        invariant i > 0 ==> Begins(size, i - 1)
        invariant !failed && forceOpt ==> forall z :: 0 <= z < i ==> ZoneHeaderOk(hs, disk, z)
      {
        if !Begins(size, i) {
          return IoError;
        }
        var off := ZoneNode(Volume, i).off;
        NodeIn(disk, g, ZoneNode(Volume, i));
        var ok, block := ReadMedia(off);
        if !ok {
          return IoError;
        }
        MagicAt(old(disk), disk, i, block.head);
        ghost var before := disk;
        r := ModifyVolumeHeader(i, block.head);
        if r != Ok {
          failed := true;
        }
        SameButChecksTransitive(old(disk), before, disk);
      }
      FirstMagicsAll(old(disk), size);
      r := if failed then IoError else Ok;
    }

    /** The whole tool: both trees of every zone, then every header.
        Nothing but check codes and CRCs ever changes, even when a device error stops it;
        with `-f` a run that completes leaves every check code and CRC right; and a run
        that starts from such a volume writes nothing. */
    method Run() returns (r: Status)
      requires Valid() && ZonesIn(g, size)
      modifies this`disk
      ensures Valid() && SameButChecks(old(disk), disk)
      ensures !forceOpt ==> disk == old(disk)
      ensures r.Ok? && forceOpt ==> Repaired(hs, disk, g, size)
      ensures Repaired(hs, old(disk), g, size) ==> disk == old(disk)
      ensures r.Ok? ==> AllBegin(size) && MagicsOk(old(disk), size)
      ensures reliable ==> (r.Ok? <==> AllBegin(size) && MagicsOk(old(disk), size))
      ensures !AllBegin(size) ==> r == IoError
      ensures reliable && forceOpt ==> TreesClean(hs, disk, g, size, Freemap)
    {
      r := ReconstructBlockref(Freemap);
      if r != Ok {
        return;
      }
      ghost var d1 := disk;
      r := ReconstructBlockref(Volume);
      SameButChecksTransitive(old(disk), d1, disk);
      if r != Ok {
        return;
      }
      ghost var d2 := disk;
      FirstKept(hs, d1, d2, g, size, Freemap, HAMMER2_NUM_VOLHDRS);
      MagicsStable(old(disk), d2, size);
      r := ReconstructVolumeHeader();
      SameButChecksTransitive(old(disk), d2, disk);
      assert Kept(hs, d2, disk, g);
      FirstKept(hs, d2, disk, g, size, Freemap, HAMMER2_NUM_VOLHDRS);
      FirstKept(hs, d2, disk, g, size, Volume, HAMMER2_NUM_VOLHDRS);
    }
  }

  /** A forced run on a 1GB volume, device and headers in order: only zone 0 exists, its freemap
      tree is repaired, and the run fails before it comes to the volume tree. */
  method RepairOneGigabyte(disk: Disk, hs: Hashes, ghost g: Graph) returns (r: Status, after: Disk)
    requires WellFormed(disk, g) && Supported(disk, g) && ZonesIn(g, 0x4000_0000)
    ensures r == IoError && SameButChecks(disk, after) && WellFormed(after, g)
    ensures ZoneNode(Freemap, 0) in g.nodes && Clean(hs, after, g, ZoneNode(Freemap, 0))
  {
    var tool := new Reconstructor(disk, hs, true, true, 0x4000_0000, g);
    r := tool.Run();
    after := tool.disk;
    assert Begins(tool.size, 0) && !Begins(tool.size, 1);
    assert ZoneNode(Freemap, 0) in g.nodes;
  }

  ghost predicate MagicsOk(disk: Disk, size: nat) {
    forall z: nat :: Begins(size, z) ==> ZoneMagicOk(disk, z)
  }

  /** Those of the first `k` zones are. */
  ghost predicate FirstMagics(disk: Disk, k: nat) { forall z: nat :: z < k ==> ZoneMagicOk(disk, z) }

  lemma FirstMagicsAll(disk: Disk, size: nat)
    ensures AllBegin(size) ==> (FirstMagics(disk, HAMMER2_NUM_VOLHDRS) <==> MagicsOk(disk, size))
  {
    AllBeginAll(size);
  }

  lemma MagicAt(was: Disk, now: Disk, z: nat, h: Header)
    requires SameButChecks(was, now) && ZoneNode(Volume, z).off in now && now[ZoneNode(Volume, z).off] == HeaderBlock(h)
    ensures ZoneMagicOk(was, z) <==> MagicOk(h)
  {
    var off := ZoneNode(Volume, z).off;
    assert off in was.Keys && SameBlock(was[off], now[off]);
  }

  predicate ZoneMagicOk(disk: Disk, z: nat) {
    var off := ZoneNode(Volume, z).off;
    off in disk && disk[off].HeaderBlock? && MagicOk(disk[off].head)
  }

  lemma MagicsStable(a: Disk, b: Disk, size: nat)
    requires SameButChecks(a, b)
    ensures MagicsOk(a, size) <==> MagicsOk(b, size)
  {
    forall z: nat ensures ZoneMagicOk(a, z) <==> ZoneMagicOk(b, z) {
      var off := ZoneNode(Volume, z).off;
      assert off in a.Keys <==> off in b.Keys;
      assert off in a ==> SameBlock(a[off], b[off]);
    }
  }

  predicate ZoneHeaderOk(hs: Hashes, disk: Disk, z: nat) {
    var off := ZoneNode(Volume, z).off;
    off in disk && disk[off].HeaderBlock? && HeaderOk(hs, disk[off].head)
  }

  ghost predicate HeadersOk(hs: Hashes, disk: Disk, size: nat) {
    forall z: nat :: Begins(size, z) ==> ZoneHeaderOk(hs, disk, z)
  }

  /** Replacing a header by one that differs in CRCs only. */
  lemma HeaderPatch(hs: Hashes, a: Disk, g: Graph, size: nat, zone: nat, v: Header)
    requires WellFormed(a, g) && Supported(a, g) && ZonesIn(g, size) && Begins(size, zone)
    requires ZoneNode(Volume, zone).off in a && a[ZoneNode(Volume, zone).off].HeaderBlock?
    requires var h := a[ZoneNode(Volume, zone).off].head;
      v == h.(icrcSect1 := v.icrcSect1, icrcSect0 := v.icrcSect0, icrcVolheader := v.icrcVolheader)
    ensures var b := a[ZoneNode(Volume, zone).off := HeaderBlock(v)];
      && SameButChecks(a, b) && WellFormed(b, g) && Supported(b, g)
      && (forall n :: n in g.nodes ==> Entries(b, n) == Entries(a, n))
      && (forall z :: 0 <= z < HAMMER2_NUM_VOLHDRS && z != zone ==> (ZoneHeaderOk(hs, a, z) <==> ZoneHeaderOk(hs, b, z)))
  {
    var b := a[ZoneNode(Volume, zone).off := HeaderBlock(v)];
    forall d | d in a ensures SameBlock(a[d], b[d]) {}
    WellFormedStable(a, b, g);
    SupportedStable(a, b, g);
    forall n | n in g.nodes ensures Entries(b, n) == Entries(a, n) {
      assert NodeOk(a, g, n);
    }
  }

  ghost predicate FirstClean(hs: Hashes, disk: Disk, g: Graph, size: nat, t: BrefType, k: int)
    requires WellFormed(disk, g) && ZonesIn(g, size) && IsHeaderType(t)
  {
    forall z: nat {:trigger ZoneNode(t, z)} :: z < k && Begins(size, z) ==> Clean(hs, disk, g, ZoneNode(t, z))
  }

  ghost predicate TreesClean(hs: Hashes, disk: Disk, g: Graph, size: nat, t: BrefType)
    requires WellFormed(disk, g) && ZonesIn(g, size) && IsHeaderType(t)
  {
    FirstClean(hs, disk, g, size, t, HAMMER2_NUM_VOLHDRS)
  }

  lemma FirstKept(hs: Hashes, a: Disk, b: Disk, g: Graph, size: nat, t: BrefType, k: int)
    requires WellFormed(a, g) && WellFormed(b, g) && ZonesIn(g, size) && IsHeaderType(t) && Kept(hs, a, b, g)
    ensures FirstClean(hs, a, g, size, t, k) ==> FirstClean(hs, b, g, size, t, k)
  {
    forall z: nat | z < k && Begins(size, z) && Clean(hs, a, g, ZoneNode(t, z)) ensures Clean(hs, b, g, ZoneNode(t, z)) {
      CleanKept(hs, a, b, g, ZoneNode(t, z));
    }
  }

  /** Every check code reachable from any zone of the volume and every header CRC is right. */
  ghost predicate Repaired(hs: Hashes, disk: Disk, g: Graph, size: nat)
    requires WellFormed(disk, g) && ZonesIn(g, size)
  {
    TreesClean(hs, disk, g, size, Freemap) && TreesClean(hs, disk, g, size, Volume) && HeadersOk(hs, disk, size)
  }
}
