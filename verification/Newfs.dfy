/** Formatting: the layout of the volumes, the boot and auxiliary areas, and the blocks that are
    written to each device. */
module Newfs {
  import opened Basics
  import opened Volumes
  import opened Ondisk

  const ZONE_SEG := 0x40_0000
  const RADIX_MIN := 10
  const INODE_BYTES := 1024
  const MAXLABELS := 4
  const BOOT_NOM := 0x400_0000
  const AUX_NOM := 0x1000_0000

  datatype Options = Options(version: nat, sizes: seq<nat>, boot: nat, aux: nat, labels: nat, fsid: nat)

  datatype Refusal = SizeCount | NoSize | BadVolumes | NoSpace | AreasTooLarge

  /** The part of a device that volume i of n may use before alignment; `resid` is what is left
      of a single size limit. */
  function Usable(dev: Device, sizes: seq<nat>, resid: nat, i: nat): nat
    requires |sizes| > 1 ==> i < |sizes|
  {
    if |sizes| == 1 then Least(dev.size, resid) else if |sizes| > 1 then Least(dev.size, sizes[i]) else dev.size
  }

  function Least(a: nat, b: nat): nat { if a < b then a else b }

  function Unit(i: nat, n: nat): nat { if i + 1 == n then ALIGN else LEVEL1 }

  /** The first k volumes are in place: each begins where the one before ends, is a multiple of
      its unit, and is the largest such part of its device. */
  ghost predicate InPlace(vs: seq<Volume>, av: seq<Device>, sizes: seq<nat>, k: nat) {
    && k <= |av| <= |vs| && (forall i {:trigger vs[i]} :: k <= i < |vs| ==> vs[i].Absent?)
    && forall i: nat {:trigger Placed(vs, av, sizes, i)} :: i < k ==> Placed(vs, av, sizes, i)
  }

  ghost predicate Placed(vs: seq<Volume>, av: seq<Device>, sizes: seq<nat>, i: nat)
    requires i < |av| <= |vs|
  {
    && vs[i].Present? && vs[i].dev == av[i] && vs[i].id == i && Follows(vs, i) && SizeOk(av, sizes, i, vs[i].size)
  }

  /** What of a volume is decided when its size is chosen. */
  ghost predicate SizeOk(av: seq<Device>, sizes: seq<nat>, i: nat, size: nat)
    requires i < |av|
  {
    && 0 < size <= av[i].size && size % Unit(i, |av|) == 0
    && (|sizes| == |av| > 1 ==> size <= sizes[i])
    && (sizes == [] ==> av[i].size < size + Unit(i, |av|))
  }

  /** The first k volumes are in place and add up to the total. */
  ghost predicate Built(vs: seq<Volume>, av: seq<Device>, sizes: seq<nat>, k: nat, total: nat) {
    && InPlace(vs, av, sizes, k) && total == Sum(vs)
    && total == if k > 0 && vs[k - 1].Present? then vs[k - 1].offset + vs[k - 1].size else 0
  }

  lemma BuildOne(vs: seq<Volume>, av: seq<Device>, sizes: seq<nat>, k: nat, total: nat, size: nat)
    requires Built(vs, av, sizes, k, total) && k < |av| && SizeOk(av, sizes, k, size)
    ensures Built(vs[k := Present(av[k], k, total, size)], av, sizes, k + 1, total + size)
  {
    var v := Present(av[k], k, total, size);
    var next := vs[k := v];
    SumInstall(vs, k, v);
    forall i: nat | i < k + 1
      ensures Placed(next, av, sizes, i)
    {
      assert k > 0 ==> Placed(vs, av, sizes, k - 1);
      if i < k { assert Placed(vs, av, sizes, i); }
    }
  }

  lemma BuildNone(av: seq<Device>, sizes: seq<nat>)
    requires |av| <= MAX_VOLUMES
    ensures Built(NoVolumes, av, sizes, 0, 0)
  {
    NothingAfter(NoVolumes, 0);
  }

  /** The size that the loop gives to volume i, given what is usable. */
  function Rounded(usable: nat, i: nat, n: nat): nat { usable - usable % Unit(i, n) }

  lemma RoundedOk(av: seq<Device>, sizes: seq<nat>, resid: nat, i: nat)
    requires i < |av| && (|sizes| <= 1 || |sizes| == |av|)
    ensures var u := Usable(av[i], sizes, resid, i); Rounded(u, i, |av|) == 0 <==> u < Unit(i, |av|)
    ensures var u := Usable(av[i], sizes, resid, i); Rounded(u, i, |av|) > 0 ==> SizeOk(av, sizes, i, Rounded(u, i, |av|))
  {
    var u := Usable(av[i], sizes, resid, i);
    if i + 1 == |av| {
      assert Unit(i, |av|) == ALIGN;
    }
  }

  /** The devices before i, end to end. */
  function DeviceSum(av: seq<Device>, i: nat): nat
    requires i <= |av|
  {
    if i == 0 then 0 else DeviceSum(av, i - 1) + av[i - 1].size
  }

  /** What a single size limit leaves for device i: the limit less everything before it. */
  function Resid(av: seq<Device>, sizes: seq<nat>, i: nat): nat
    requires i <= |av|
  {
    if |sizes| == 1 && DeviceSum(av, i) < sizes[0] then sizes[0] - DeviceSum(av, i) else 0
  }

  /** The size that volume i has to get. */
  function Share(av: seq<Device>, sizes: seq<nat>, i: nat): nat
    requires i < |av| && (|sizes| <= 1 || |sizes| == |av|)
  {
    Rounded(Usable(av[i], sizes, Resid(av, sizes, i), i), i, |av|)
  }

  /** No volume would be empty. */
  ghost predicate EachFits(av: seq<Device>, sizes: seq<nat>)
    requires |sizes| <= 1 || |sizes| == |av|
  {
    forall i: nat {:trigger av[i]} :: i < |av| ==> Usable(av[i], sizes, Resid(av, sizes, i), i) >= Unit(i, |av|)
  }

  function ShareSum(av: seq<Device>, sizes: seq<nat>, k: nat): nat
    requires k <= |av| && (|sizes| <= 1 || |sizes| == |av|)
  {
    if k == 0 then 0 else ShareSum(av, sizes, k - 1) + Share(av, sizes, k - 1)
  }

  /** The size of volume i, if there is any left for it, and the rest of a single limit. */
  method ChooseSize(av: seq<Device>, sizes: seq<nat>, i: nat, resid: nat) returns (size: nat, rest: nat)
    requires i < |av| && (|sizes| <= 1 || |sizes| == |av|)
    ensures size > 0 <==> Usable(av[i], sizes, resid, i) >= Unit(i, |av|)
    ensures size > 0 ==> SizeOk(av, sizes, i, size)
    ensures size == Rounded(Usable(av[i], sizes, resid, i), i, |av|)
    ensures rest == if |sizes| != 1 || resid == 0 then resid else resid - Least(av[i].size, resid)
  {
    RoundedOk(av, sizes, resid, i);
    size, rest := av[i].size, resid;
    if |sizes| == 1 {
      if resid == 0 {
        return 0, 0;
      }
      if size > resid { size := resid; }
      rest := rest - size;
    } else if |sizes| > 1 {
      if size > sizes[i] { size := sizes[i]; }
    }
    if i == |av| - 1 {
      size := size - size % ALIGN;
    } else {
      size := size - size % LEVEL1;
    }
  }

  lemma ResidNext(av: seq<Device>, sizes: seq<nat>, i: nat)
    requires i < |av|
    ensures var r := Resid(av, sizes, i);
      Resid(av, sizes, i + 1) == if |sizes| != 1 || r == 0 then r else r - Least(av[i].size, r)
  {}

  /** The loop of `hammer2_mkfs` that builds the table: it succeeds exactly when there is room
      for each volume, and then each has the size that it has to get. */
  method BuildVolumes(fso: VolumeTable, av: seq<Device>, sizes: seq<nat>) returns (ok: bool)
    requires fso.Valid() && fso.volumes[..] == NoVolumes && fso.total == 0
    requires 1 <= |av| <= MAX_VOLUMES && (|sizes| <= 1 || |sizes| == |av|)
    modifies fso`total, fso.volumes
    ensures ok <==> EachFits(av, sizes)
    ensures ok ==> Built(fso.volumes[..], av, sizes, |av|, fso.total) && fso.total == ShareSum(av, sizes, |av|)
    ensures ok ==> forall i: nat {:trigger fso.volumes[i]} :: i < |av| ==>
      fso.volumes[i].Present? && fso.volumes[i].size == Share(av, sizes, i)
  {
    hide Built, SizeOk, Unit, Usable, Rounded;
    var resid := if |sizes| == 1 then sizes[0] else 0;
    var i: nat := 0;
    BuildNone(av, sizes);
    while i < |av|
      invariant i <= |av| && Built(fso.volumes[..], av, sizes, i, fso.total)
      invariant resid == Resid(av, sizes, i) && fso.total == ShareSum(av, sizes, i)
      invariant forall k: nat {:trigger av[k]} :: k < i ==> Usable(av[k], sizes, Resid(av, sizes, k), k) >= Unit(k, |av|)
      invariant forall k: nat {:trigger fso.volumes[k]} :: k < i ==> fso.volumes[k].Present? && fso.volumes[k].size == Share(av, sizes, k)
    {
      var size, rest := ChooseSize(av, sizes, i, resid);
      ResidNext(av, sizes, i);
      if size == 0 {
        return false;
      }
      BuildOne(fso.volumes[..], av, sizes, i, fso.total, size);
      ghost var vs := fso.volumes[..];
      fso.volumes[i] := Present(av[i], i, fso.total, size);
      assert fso.volumes[..] == vs[i := Present(av[i], i, fso.total, size)];
      fso.total := fso.total + size;
      resid := rest;
      i := i + 1;
    }
    return true;
  }

  /** Halved until it is small enough. */
  function Halved(size: nat, limit: nat): nat { if size > limit then Halved(size / 2, limit) else size }

  /** The size of an area: the given size, or the nominal size halved until it is a twentieth of the
      total or less; at least the alignment, and rounded up to it. */
  function Area(given: nat, nominal: nat, total: nat): nat {
    var size := if given == 0 then Halved(nominal, total / 20) else given;
    if size < ALIGN then ALIGN else (size + ALIGN - 1) / ALIGN * ALIGN
  }

  /** The size of an area: at least the alignment, and a multiple of it. */
  predicate AreaOk(given: nat, nominal: nat, total: nat, area: nat) {
    && area % ALIGN == 0 && area >= ALIGN && given <= area && (given >= ALIGN ==> area < given + ALIGN)
    && (0 < given < ALIGN ==> area == ALIGN)
    && (given == 0 ==> area <= nominal && (area <= total / 20 || area == ALIGN) && (area == nominal || total / 20 < 2 * area))
  }

  /** A power of two between the alignment and the nominal size, or smaller. */
  predicate Halving(size: nat) {
    size in {AUX_NOM, BOOT_NOM, 0x800_0000, 0x200_0000, 0x100_0000, 0x80_0000} || size < ALIGN
  }

  /** `adjust_options`, for one area. */
  method AdjustArea(given: nat, nominal: nat, total: nat) returns (area: nat)
    requires nominal == BOOT_NOM || nominal == AUX_NOM
    ensures AreaOk(given, nominal, total, area) && area == Area(given, nominal, total)
  {
    area := given;
    if area == 0 {
      area := nominal;
      while area > total / 20
        invariant Halving(area) && area <= nominal && Halved(area, total / 20) == Halved(nominal, total / 20)
        invariant area == nominal || total / 20 < 2 * area + 1
        invariant area >= ALIGN && area != nominal ==> total / 20 < 2 * area
      {
        area := area / 2;
      }
      if area < ALIGN { area := ALIGN; }
    } else if area < ALIGN {
      area := ALIGN;
    }
    area := (area + ALIGN - 1) / ALIGN * ALIGN;
  }

  /** `alloc_direct`: the next piece of a power of two bytes, at least 1KB; its offset carries
      the radix. */
  method AllocDirect(base: nat, bytes: nat, ghost log: nat) returns (off: nat, next: nat)
    requires bytes == Pow2(log) && base % 64 == 0 && log < 64
    ensures next == base + Pow2(if log < RADIX_MIN then RADIX_MIN else log)
    ensures off == base + if log < RADIX_MIN then RADIX_MIN else log
  {
    var radix := 0;
    var rest := bytes;
    while rest % 2 == 0
      invariant radix <= log && rest == Pow2(log - radix)
      decreases rest
    {
      radix := radix + 1;
      rest := rest / 2;
    }
    assert rest == 1;
    if radix < RADIX_MIN { radix := RADIX_MIN; }
    off, next := base + radix, base + Pow2(radix);
  }

  /** No device is named twice. */
  ghost predicate Distinct(av: seq<Device>) { forall i, j :: 0 <= i < j < |av| ==> av[i] != av[j] }

  lemma {:induction false} PlacedChain(vs: seq<Volume>, av: seq<Device>, sizes: seq<nat>, n: nat, i: nat)
    requires InPlace(vs, av, sizes, n) && n == |av| && i < n
    ensures vs[i].Present? && vs[i].offset % LEVEL1 == 0 && ChainOk(vs, n, i)
  {
    assert Placed(vs, av, sizes, i);
    if i > 0 {
      assert Placed(vs, av, sizes, i - 1);
      PlacedChain(vs, av, sizes, n, i - 1);
      SumOfMultiples(vs[i - 1].offset, vs[i - 1].size);
    }
  }

  lemma SumOfMultiples(a: nat, b: nat)
    requires a % LEVEL1 == 0 && b % LEVEL1 == 0
    ensures (a + b) % LEVEL1 == 0
  {}

  lemma {:induction false} CountFilled(vs: seq<Volume>, n: nat)
    requires n <= |vs| && forall i {:trigger vs[i]} :: 0 <= i < |vs| ==> (vs[i].Present? <==> i < n)
    ensures Count(vs) == n
  {
    var m := |vs| - 1;
    if m >= 0 { CountFilled(vs[..m], if n == |vs| then n - 1 else n); }
  }

  /** Whole units are aligned. */
  lemma UnitAligned(size: nat, i: nat, n: nat)
    requires size % Unit(i, n) == 0
    ensures size % ALIGN == 0
  {
    var q := size / Unit(i, n);
    assert i + 1 != n ==> size == ALIGN * (128 * q);
    MultipleOf(ALIGN, 128 * q);
  }

  lemma MultipleOf(unit: nat, q: nat)
    requires unit > 0
    ensures (unit * q) % unit == 0
  {
    var x := unit * q;
    NoneLeft(unit, q, x / unit, x % unit);
  }

  lemma NoneLeft(u: nat, q: int, k: int, r: nat)
    requires u * q == u * k + r && r < u
    ensures r == 0
  {
    Difference(u, q, k);
    if q - k >= 1 {
      AtLeastUnit(u, q - k);
    } else if q - k <= -1 {
      AtLeastUnit(u, k - q);
      Difference(u, k, q);
    }
  }

  lemma Difference(u: int, a: int, b: int)
    ensures u * (a - b) == u * a - u * b
  {}

  lemma AtLeastUnit(u: nat, d: int)
    requires d >= 1
    ensures u * d >= u
  {}

  lemma InPlaceFilled(vs: seq<Volume>, av: seq<Device>, sizes: seq<nat>)
    requires InPlace(vs, av, sizes, |av|)
    ensures Chained(vs, |av|) && Count(vs) == |av|
    ensures forall i: nat {:trigger vs[i]} :: i < |av| ==>
      vs[i].Present? && vs[i].dev == av[i] && vs[i].id == i && 0 < vs[i].size <= av[i].size && vs[i].size % ALIGN == 0
  {
    hide Unit;
    forall i: nat | i < |av|
      ensures Follows(vs, i) && vs[i].Present? && vs[i].dev == av[i] &&
        vs[i].id == i && 0 < vs[i].size <= av[i].size && vs[i].size % ALIGN == 0
    {
      assert Placed(vs, av, sizes, i);
      UnitAligned(vs[i].size, i, |av|);
    }
    CountFilled(vs, |av|);
  }

  lemma CommonIff(vs: seq<Volume>, av: seq<Device>, sizes: seq<nat>)
    requires InPlace(vs, av, sizes, |av|)
    ensures AllCommon(vs) <==> Distinct(av)
  {
    InPlaceFilled(vs, av, sizes);
    if Distinct(av) {
      forall i: nat | i < |vs|
        ensures CommonOk(vs, i)
      {
        if i < |av| { PlacedChain(vs, av, sizes, |av|, i); }
      }
    }
    if AllCommon(vs) {
      forall i, j | 0 <= i < j < |av|
        ensures av[i] != av[j]
      {
        assert CommonOk(vs, j) && vs[i].Present?;
      }
    }
  }

  /** A table that the loop built passes the verification, unless a device was named twice or the
      version allows only one volume. */
  lemma BuiltVerifies(t: Table, av: seq<Device>, sizes: seq<nat>)
    requires 1 <= |av| <= MAX_VOLUMES == |t.volumes| && Built(t.volumes, av, sizes, |av|, t.total) && t.nvolumes == |av| && t.version >= 0
    ensures Verified(t, None) <==> Distinct(av) && (t.version >= MULTI_VOLUMES || |av| == 1)
  {
    var vs := t.volumes;
    CommonIff(vs, av, sizes);
    InPlaceFilled(vs, av, sizes);
    forall i: nat | i < |vs|
      ensures ChainOk(vs, |av|, i)
    {
      if i < |av| { PlacedChain(vs, av, sizes, |av|, i); }
    }
    assert Follows(vs, 0) && vs[0].Present?;
  }
}
