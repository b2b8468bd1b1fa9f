/** The whole of formatting. */
module Mkfs {
  import opened Basics
  import opened Volumes
  import opened Ondisk
  import opened Newfs
  import opened Format

  datatype Outcome = Refused(why: Refusal) | Formatted(t: Table, areas: Areas)

  /** A table that describes the devices it was made for. */
  ghost predicate Laid(t: Table, av: seq<Device>) {
    && 1 <= |av| == t.nvolumes <= MAX_VOLUMES == |t.volumes| && 0 <= t.version && t.fstype == FSTYPE
    && Distinct(av) && Chained(t.volumes, |av|) && t.total == Sum(t.volumes) && Verified(t, None)
    && forall i: nat {:trigger t.volumes[i]} :: i < |av| ==> LaidAt(t.volumes[i], av[i], i)
  }

  /** Each volume has the size that it has to get. */
  ghost predicate Sized(t: Table, av: seq<Device>, sizes: seq<nat>) {
    && |av| <= |t.volumes| && (|sizes| <= 1 || |sizes| == |av|)
    && forall i: nat {:trigger t.volumes[i]} :: i < |av| ==> t.volumes[i].Present? && t.volumes[i].size == Share(av, sizes, i)
  }

  predicate LaidAt(v: Volume, dev: Device, i: nat) {
    v.Present? && v.dev == dev && v.id == i && 0 < v.size <= dev.size && v.size % ALIGN == 0
  }

  lemma BuiltLaid(t: Table, av: seq<Device>, sizes: seq<nat>)
    requires 1 <= |av| == t.nvolumes <= MAX_VOLUMES == |t.volumes| && 0 <= t.version && t.fstype == FSTYPE
    requires Built(t.volumes, av, sizes, |av|, t.total) && Verified(t, None)
    ensures Laid(t, av)
  {
    BuiltVerifies(t, av, sizes);
    InPlaceFilled(t.volumes, av, sizes);
    forall i: nat | i < |av|
      ensures LaidAt(t.volumes[i], av[i], i)
    {
      var v := t.volumes[i];
    }
  }

  /** The total is a multiple of the alignment, and the root volume is all of it or at least 1GB. */
  lemma TotalOk(t: Table, av: seq<Device>)
    requires Laid(t, av)
    ensures t.total % ALIGN == 0
    ensures t.volumes[0].size == t.total || t.volumes[0].size >= LEVEL1
  {
    var vs, n := t.volumes, |av|;
    VerifiedChain(t, None);
    CountFilled(vs, n);
    NothingAfter(vs, n);
    AlignedSum(t, av, n);
    SumIs(vs, n, n);
    assert Follows(vs, 0);
    if n > 1 {
      OnlyFirstCounts(t);
      assert ChainOk(vs, n, 0);
    }
  }

  lemma OnlyFirstCounts(t: Table)
    requires |t.volumes| == MAX_VOLUMES && Verified(t, None) && Count(t.volumes) > 1
    ensures AllChain(t.volumes, t.nvolumes)
  {
    assert t.version >= MULTI_VOLUMES ==> Ok2(t);
    assert t.version < MULTI_VOLUMES ==> Ok1(t);
  }

  lemma {:induction false} AlignedSum(t: Table, av: seq<Device>, k: nat)
    requires Laid(t, av) && k <= |av|
    ensures Sum(t.volumes[..k]) % ALIGN == 0
  {
    if k > 0 {
      AlignedSum(t, av, k - 1);
      assert t.volumes[..k][..k - 1] == t.volumes[..k - 1];
      var v := t.volumes[k - 1];
      assert LaidAt(v, av[k - 1], k - 1);
      SumAligned(Sum(t.volumes[..k - 1]), v.size);
    }
  }

  lemma SumAligned(a: nat, b: nat)
    requires a % ALIGN == 0 && b % ALIGN == 0
    ensures (a + b) % ALIGN == 0
  {}

  /** Volume i of the table was written to its device. */
  ghost predicate OnDevice(t: Table, areas: Areas, i: nat, dev: Device, before: seq<Option<Header>>)
    requires |t.volumes| == MAX_VOLUMES && i < MAX_VOLUMES && t.volumes[i].Present? && t.version >= 0 && t.nvolumes <= MAX_VOLUMES
    requires |before| == NUM_VOLHDRS
    reads dev
  {
    Written(dev, HeaderFor(t, i, areas), t.volumes[i].size, before)
  }

  /** The loop of `hammer2_mkfs` that writes the volumes. */
  method FormatAll(t: Table, av: seq<Device>, boot: nat, aux: nat, free: nat, labels: nat) returns (ok: bool)
    requires Laid(t, av) && RootRoom(boot, aux, t.volumes[0].size) && labels <= MAXLABELS
    modifies av
    ensures ok == (AllocBase(boot, aux) < LEVEL1)
    ensures ok ==> forall i: nat {:trigger av[i]} :: i < |av| ==>
      OnDevice(t, AreasOf(boot, aux, free, labels), i, av[i], old(av[i].Copies(NUM_VOLHDRS)))
    ensures ok ==> RootBlock(av[0], AllocBase(boot, aux), labels)
  {
    hide RootRoom, AllocBase, AreasOf, RootBlock, Written, Verified, SameAbove;
    ghost var areas := AreasOf(boot, aux, free, labels);
    var i: nat := 0;
    while i < |av|
      invariant i <= |av| && (i > 0 ==> AllocBase(boot, aux) < LEVEL1 && RootBlock(av[0], AllocBase(boot, aux), labels))
      invariant forall k: nat {:trigger av[k]} :: k < i ==> OnDevice(t, areas, k, av[k], old(av[k].Copies(NUM_VOLHDRS)))
      invariant forall k: nat {:trigger av[k]} :: i <= k < |av| ==> av[k].blocks == old(av[k].blocks)
    {
      var vol := t.volumes[i];
      assert LaidAt(vol, av[i], i);
      assert forall k: nat {:trigger av[k]} :: k < |av| && k != i ==> av[k] != av[i];
      assert av[i].Copies(NUM_VOLHDRS) == old(av[i].Copies(NUM_VOLHDRS));
      var done := FormatVolume(t, i, av[i], vol.size, boot, aux, free, labels);
      if !done {
        return false;
      }
      assert OnDevice(t, areas, i, av[i], old(av[i].Copies(NUM_VOLHDRS)));
      i := i + 1;
    }
    return true;
  }

  /** If enough free space is left, the start of the allocation is on the root volume. */
  lemma RootFits(t: Table, av: seq<Device>, boot: nat, aux: nat)
    requires Laid(t, av) && boot % ALIGN == 0 && aux % ALIGN == 0 && boot >= ALIGN && aux >= ALIGN
    requires Reserved(t.total) + boot + aux <= t.total
    ensures |t.volumes| == MAX_VOLUMES && t.volumes[0].Present? && RootRoom(boot, aux, t.volumes[0].size)
  {
    TotalOk(t, av);
    assert LaidAt(t.volumes[0], av[0], 0);
    RoomForRoot(boot, aux, t.volumes[0].size, t.total);
  }

  lemma DefaultsFit(opt: Options, total: nat, boot: nat, aux: nat)
    requires AreaOk(opt.boot, BOOT_NOM, total, boot) && AreaOk(opt.aux, AUX_NOM, total, aux)
    ensures opt.boot == 0 && opt.aux == 0 ==> AllocBase(boot, aux) < LEVEL1
    ensures boot % ALIGN == 0 && aux % ALIGN == 0 && boot >= ALIGN && aux >= ALIGN
  {}

  lemma AreasAre(boot: nat, aux: nat, free: nat, labels: nat, size: nat)
    requires RootRoom(boot, aux, size) && AllocBase(boot, aux) < LEVEL1
    ensures AreasOf(boot, aux, free, labels).auxEnd == AllocBase(boot, aux)
    ensures AreasOf(boot, aux, free, labels).sroot == AllocBase(boot, aux) + RADIX_MIN
    ensures AllocBase(boot, aux) % PBUF == 0 && AllocBase(boot, aux) + PBUF <= size
  {
    BlockAligned(boot, aux);
  }

  lemma BlockAligned(boot: nat, aux: nat)
    requires boot % ALIGN == 0 && aux % ALIGN == 0
    ensures AllocBase(boot, aux) % PBUF == 0
  {
    var m, n := boot / ALIGN, aux / ALIGN;
    var q := 64 + 128 * m + 128 * n;
    assert AllocBase(boot, aux) == PBUF * q;
    MultipleOf(PBUF, q);
  }

  /** One size for all devices, or one for each. */
  predicate CountOk(av: seq<Device>, opt: Options) { |opt.sizes| <= 1 || |opt.sizes| == |av| }

  /** What the verification of the table asks of the devices. */
  ghost predicate TableOk(av: seq<Device>, opt: Options) { Distinct(av) && (opt.version >= MULTI_VOLUMES || |av| == 1) }

  /** How the areas divide the root volume: 4MB, then the boot area and the auxiliary area with the
      sizes that the options ask for, then the block of the inodes, the super-root's first in it (its radix, 10, in the offset);
      what can be allocated is what neither they nor the reserved segments take. */
  predicate Partitioned(a: Areas, total: nat, boot: nat, aux: nat, labels: nat) {
    && a.bootBeg == 0x40_0000 && a.bootEnd - a.bootBeg == boot
    && a.auxBeg == a.bootEnd && a.auxEnd - a.auxBeg == aux
    && a.sroot == a.auxEnd + 10 && a.allocBeg - a.auxEnd == 0x400 * (labels + 1) && a.allocBeg <= a.auxEnd + 0x1_0000
    && a.allocSize == a.allocFree == total - Reserved(total) - boot - aux
  }

  lemma AreasDivide(total: nat, boot: nat, aux: nat, free: nat, labels: nat)
    requires free == total - Reserved(total) - boot - aux && labels <= MAXLABELS
    ensures Partitioned(AreasOf(boot, aux, free, labels), total, boot, aux, labels)
  {}

  /** Something is left behind the reserved areas. */
  predicate RoomLeft(total: nat, opt: Options) {
    Reserved(total) + Area(opt.boot, BOOT_NOM, total) + Area(opt.aux, AUX_NOM, total) <= total
  }

  /** The boot and auxiliary areas end in the first 1GB. */
  predicate AreasFit(total: nat, opt: Options) {
    AllocBase(Area(opt.boot, BOOT_NOM, total), Area(opt.aux, AUX_NOM, total)) < LEVEL1
  }

  /** The first part of `hammer2_mkfs`: the table of volumes. */
  method MakeTable(av: seq<Device>, opt: Options) returns (why: Option<Refusal>, t: Table)
    requires 1 <= |av| <= MAX_VOLUMES && 1 <= opt.version <= MULTI_VOLUMES
    ensures why.None? ==> Laid(t, av) && Built(t.volumes, av, opt.sizes, |av|, t.total) && t.version == opt.version && t.fsid == opt.fsid
    ensures why.None? ==> CountOk(av, opt) && t.total == ShareSum(av, opt.sizes, |av|) && Sized(t, av, opt.sizes)
    ensures why == Some(SizeCount) <==> !CountOk(av, opt)
    ensures why == Some(NoSize) <==> CountOk(av, opt) && !EachFits(av, opt.sizes)
    ensures why == Some(BadVolumes) <==> CountOk(av, opt) && EachFits(av, opt.sizes) && !TableOk(av, opt)
    ensures why in {None, Some(SizeCount), Some(NoSize), Some(BadVolumes)}
  {
    hide Vacant, Built, Verified, Laid, Distinct, EachFits;
    var fso := new VolumeTable();
    fso.version := opt.version;
    fso.nvolumes := |av|;
    fso.fsid, fso.fstype := opt.fsid, FSTYPE;
    t := Empty;
    if |opt.sizes| > 1 && |av| != |opt.sizes| {
      return Some(SizeCount), t;
    }
    var ok := BuildVolumes(fso, av, opt.sizes);
    if !ok {
      return Some(NoSize), t;
    }
    t := Table(fso.version, fso.nvolumes, fso.fsid, fso.fstype, fso.volumes[..], fso.total);
    BuiltVerifies(t, av, opt.sizes);
    ok := fso.Verify(None);
    if !ok {
      return Some(BadVolumes), t;
    }
    BuiltLaid(t, av, opt.sizes);
    return None, t;
  }

  /** `hammer2_mkfs`. */
  method Mkfs(av: seq<Device>, opt: Options) returns (r: Outcome)
    requires 1 <= |av| <= MAX_VOLUMES && 1 <= opt.version <= MULTI_VOLUMES && opt.labels <= MAXLABELS
    modifies av
    ensures r.Formatted? ==> Laid(r.t, av) && Built(r.t.volumes, av, opt.sizes, |av|, r.t.total)
    ensures r.Formatted? ==> r.t.version == opt.version && r.t.fsid == opt.fsid
    ensures r.Formatted? ==> forall i: nat {:trigger av[i]} :: i < |av| ==> OnDevice(r.t, r.areas, i, av[i], old(av[i].Copies(NUM_VOLHDRS)))
    ensures r.Formatted? ==> RootBlock(av[0], r.areas.auxEnd, opt.labels) && r.areas.sroot == r.areas.auxEnd + RADIX_MIN
    ensures r.Formatted? ==> r.areas.auxEnd % PBUF == 0 && r.areas.auxEnd + PBUF <= r.t.volumes[0].size
    ensures r.Formatted? ==> exists boot, aux {:trigger Partitioned(r.areas, r.t.total, boot, aux, opt.labels)} ::
      AreaOk(opt.boot, BOOT_NOM, r.t.total, boot) && AreaOk(opt.aux, AUX_NOM, r.t.total, aux) &&
      Partitioned(r.areas, r.t.total, boot, aux, opt.labels)
    ensures r == Refused(SizeCount) <==> !CountOk(av, opt)
    ensures r == Refused(NoSize) <==> CountOk(av, opt) && !EachFits(av, opt.sizes)
    ensures r == Refused(BadVolumes) <==> CountOk(av, opt) && EachFits(av, opt.sizes) && !TableOk(av, opt)
    ensures CountOk(av, opt) && EachFits(av, opt.sizes) && TableOk(av, opt) ==>
      var total := ShareSum(av, opt.sizes, |av|);
      && (r == Refused(NoSpace) <==> !RoomLeft(total, opt))
      && (r == Refused(AreasTooLarge) <==> RoomLeft(total, opt) && !AreasFit(total, opt))
      && (r.Formatted? <==> RoomLeft(total, opt) && AreasFit(total, opt))
      && (r.Formatted? ==> r.t.total == total && Sized(r.t, av, opt.sizes))
    ensures r == Refused(AreasTooLarge) ==> opt.boot > 0 || opt.aux > 0
    ensures r.Refused? && r.why != AreasTooLarge ==>
      forall i: nat {:trigger av[i]} :: i < |av| ==> av[i].blocks == old(av[i].blocks)
  {
    hide Built, Verified, Laid, AreaOk, AllocBase, AreasOf, Partitioned, RootBlock, RootRoom, OnDevice, Distinct, EachFits,
      ShareSum, Area, Sized;
    var why, t := MakeTable(av, opt);
    if why.Some? {
      return Refused(why.value);
    }
    var boot := AdjustArea(opt.boot, BOOT_NOM, t.total);
    var aux := AdjustArea(opt.aux, AUX_NOM, t.total);
    DefaultsFit(opt, t.total, boot, aux);
    var free := t.total - Reserved(t.total) - boot - aux;
    if free < 0 {
      return Refused(NoSpace);
    }
    RootFits(t, av, boot, aux);
    var ok := FormatAll(t, av, boot, aux, free, opt.labels);
    if !ok {
      return Refused(AreasTooLarge);
    }
    AreasAre(boot, aux, free, opt.labels, t.volumes[0].size);
    AreasDivide(t.total, boot, aux, free, opt.labels);
    return Formatted(t, AreasOf(boot, aux, free, opt.labels));
  }
}
