/** Volume headers and the table of volumes: reading a header, adding a volume to the table,
    verifying the table, and finding the volume that holds an offset. */
module Volumes {
  import opened Basics

  const MAX_VOLUMES := 64
  const NUM_VOLHDRS := 4
  const PBUF := 0x1_0000
  const ALIGN := 0x80_0000
  const LEVEL1 := 0x4000_0000
  const ZONE := 0x8000_0000
  /** The 64-bit -1 that marks a missing offset or size. */
  const NOWHERE := 0xFFFF_FFFF_FFFF_FFFF
  const MULTI_VOLUMES := 2
  /** The UUID of the filesystem type. */
  const FSTYPE := 1

  datatype Header = Header(
    version: nat, id: nat, nvolumes: nat, total: nat, loff: seq<nat>, size: nat,
    fsid: nat, fstype: nat, mirrorTid: nat, areas: Areas)

  /** Where the areas of the root volume are. */
  datatype Areas = Areas(bootBeg: nat, bootEnd: nat, auxBeg: nat, auxEnd: nat,
                         allocSize: nat, allocFree: nat, allocBeg: nat, sroot: nat)

  /** A 64KB block: a header with good magic and CRCs, a block of inodes (the offsets that the
      super-root inode refers to), or anything else. */
  datatype Block = Head(h: Header) | Inodes(refs: seq<nat>) | Zero | Other(contents: nat)

  predicate HeaderShape(h: Header) { h.id < 256 && h.nvolumes <= MAX_VOLUMES && |h.loff| == MAX_VOLUMES }

  /** The header at an offset of a device of this size. */
  function HeaderAt(blocks: map<nat, Block>, size: nat, off: nat): (h: Option<Header>)
    ensures h.Some? ==> HeaderShape(h.value)
  {
    if off + PBUF <= size && off in blocks && blocks[off].Head? && HeaderShape(blocks[off].h) then Some(blocks[off].h) else None
  }

  class Device {
    const size: nat
    /** The blocks by byte offset. */
    var blocks: map<nat, Block>

    constructor (size: nat)
      ensures this.size == size
    {
      this.size := size;
      blocks := map[];
    }

    /** The header copy in zone k, if it can be read and is good. */
    function Copy(k: nat): (h: Option<Header>)
      reads this
      ensures h.Some? ==> HeaderShape(h.value)
    {
      HeaderAt(blocks, size, k * ZONE)
    }

    function Copies(n: nat): (r: seq<Option<Header>>)
      reads this
      ensures |r| == n && forall k :: 0 <= k < n ==> r[k] == Copy(k)
    {
      if n == 0 then [] else Copies(n - 1) + [Copy(n - 1)]
    }
  }

  /** The copy with the highest `mirror_tid`, the first of them. */
  function Best(copies: seq<Option<Header>>): Option<Header> {
    if copies == [] then None
    else
      var b := Best(copies[..|copies| - 1]);
      var x := copies[|copies| - 1];
      if x.Some? && (b.None? || b.value.mirrorTid < x.value.mirrorTid) then x else b
  }

  lemma {:induction false} BestIs(copies: seq<Option<Header>>)
    ensures Best(copies).None? <==> forall k :: 0 <= k < |copies| ==> copies[k].None?
    ensures Best(copies).Some? ==> Best(copies) in copies
    ensures Best(copies).Some? ==> forall k :: 0 <= k < |copies| && copies[k].Some? ==>
      copies[k].value.mirrorTid <= Best(copies).value.mirrorTid
  {
    if copies != [] {
      BestIs(copies[..|copies| - 1]);
    }
  }

  /** A header written to the first zones is found again exactly if no later zone still holds
      a good header with a higher `mirror_tid`. */
  lemma {:induction false} FreshIsBest(copies: seq<Option<Header>>, h: Header, n: nat)
    requires 0 < n <= |copies| && forall k :: 0 <= k < n ==> copies[k] == Some(h)
    ensures Best(copies) == Some(h) <==> forall k :: n <= k < |copies| && copies[k].Some? ==> copies[k].value.mirrorTid <= h.mirrorTid
  {
    var m := |copies| - 1;
    BestIs(copies[..m]);
    if m >= n {
      FreshIsBest(copies[..m], h, n);
      assert copies[..m][0] == copies[0];
    } else if m > 0 {
      FreshIsBest(copies[..m], h, m);
    }
  }

  /** `hammer2_read_volume_header`. */
  method ReadVolumeHeader(dev: Device) returns (r: Option<Header>)
    ensures r == HeaderOf(dev)
  {
    hide Best;
    r := None;
    BestOfNone();
    var i: nat := 0;
    while i < NUM_VOLHDRS
      invariant i <= NUM_VOLHDRS && r == Best(dev.Copies(i))
    {
      if i * ZONE >= dev.size {
        NoneBeyond(dev, i, NUM_VOLHDRS);
        break;
      }
      var vd := dev.Copy(i);
      if vd.Some? && (r.None? || r.value.mirrorTid < vd.value.mirrorTid) {
        r := vd;
      }
      BestOfMore(dev.Copies(i), dev.Copy(i));
      i := i + 1;
    }
  }

  lemma BestOfNone()
    ensures Best([]) == None
  {}

  lemma BestOfMore(copies: seq<Option<Header>>, x: Option<Header>)
    ensures Best(copies + [x]) == var b := Best(copies); if x.Some? && (b.None? || b.value.mirrorTid < x.value.mirrorTid) then x else b
  {
    assert (copies + [x])[..|copies|] == copies;
  }

  lemma NoneBeyond(dev: Device, i: nat, n: nat)
    requires i * ZONE >= dev.size && i <= n
    ensures Best(dev.Copies(n)) == Best(dev.Copies(i))
  {
    hide Best;
    var c := dev.Copies(n);
    assert c[..i] == dev.Copies(i);
    NoneMore(c, i);
  }

  /** Zones without a header change nothing. */
  lemma {:induction false} NoneMore(copies: seq<Option<Header>>, i: nat)
    requires i <= |copies| && forall k :: i <= k < |copies| ==> copies[k].None?
    ensures Best(copies) == Best(copies[..i])
  {
    var m := |copies| - 1;
    if i <= m {
      NoneMore(copies[..m], i);
      BestOfMore(copies[..m], copies[m]);
      assert copies[..m] + [copies[m]] == copies && copies[..m][..i] == copies[..i];
    } else {
      assert copies[..i] == copies;
    }
  }

  function HeaderOf(dev: Device): Option<Header>
    reads dev
  {
    Best(dev.Copies(NUM_VOLHDRS))
  }

  datatype Volume = Absent | Present(dev: Device, id: nat, offset: nat, size: nat)

  datatype Table = Table(version: int, nvolumes: nat, fsid: nat, fstype: nat, volumes: seq<Volume>, total: nat)

  function Vacant(n: nat): (vs: seq<Volume>)
    ensures |vs| == n && forall i :: 0 <= i < n ==> vs[i] == Absent
  {
    if n == 0 then [] else Vacant(n - 1) + [Absent]
  }

  const NoVolumes: seq<Volume> := Vacant(MAX_VOLUMES)

  const Empty := Table(-1, 0, 0, 0, NoVolumes, 0)

  function Add(t: Table, dev: Device): Option<Table>
    requires |t.volumes| == MAX_VOLUMES
    reads dev
  {
    var h := HeaderOf(dev);
    if h.None? then None else AddHeader(t, dev, h.value)
  }

  function AddHeader(t: Table, dev: Device, h: Header): Option<Table>
    requires |t.volumes| == MAX_VOLUMES
  {
    if h.id >= MAX_VOLUMES || t.volumes[h.id].Present? || |h.loff| != MAX_VOLUMES then None
    else
      var v := Present(dev, h.id, h.loff[h.id], h.size);
      if t.nvolumes == 0 then
        Some(Table(h.version, h.nvolumes, h.fsid, h.fstype, t.volumes[h.id := v], t.total + h.size))
      else if t.version != h.version || t.nvolumes != h.nvolumes || t.fsid != h.fsid || t.fstype != h.fstype then None
      else Some(t.(volumes := t.volumes[h.id := v], total := t.total + h.size))
  }

  function AddAll(devs: seq<Device>): (r: Option<Table>)
    reads devs
    ensures r.Some? ==> |r.value.volumes| == MAX_VOLUMES && r.value.nvolumes <= MAX_VOLUMES
    ensures r.Some? ==> r.value.total == Sum(r.value.volumes)
    ensures r.Some? ==> forall i :: 0 <= i < MAX_VOLUMES && r.value.volumes[i].Present? ==> r.value.volumes[i].dev in devs
  {
    NothingAfter(NoVolumes, 0);
    if devs == [] then Some(Empty)
    else
      var r := AddAll(devs[..|devs| - 1]);
      if r.None? then None else AddKeepsSum(r.value, devs[|devs| - 1]); Add(r.value, devs[|devs| - 1])
  }

  lemma AddKeepsSum(t: Table, dev: Device)
    requires |t.volumes| == MAX_VOLUMES && t.total == Sum(t.volumes) && t.nvolumes <= MAX_VOLUMES
    ensures Add(t, dev).Some? ==> Add(t, dev).value.total == Sum(Add(t, dev).value.volumes) && Add(t, dev).value.nvolumes <= MAX_VOLUMES
  {
    var h := HeaderOf(dev);
    BestIs(dev.Copies(NUM_VOLHDRS));
    if h.Some? && h.value.id < MAX_VOLUMES && t.volumes[h.value.id].Absent? {
      SumInstall(t.volumes, h.value.id, Present(dev, h.value.id, h.value.loff[h.value.id], h.value.size));
    }
  }

  lemma {:induction false} SumInstall(vs: seq<Volume>, i: nat, v: Volume)
    requires i < |vs| && vs[i].Absent? && v.Present?
    ensures Sum(vs[i := v]) == Sum(vs) + v.size
  {
    var m := |vs| - 1;
    if i < m {
      SumInstall(vs[..m], i, v);
      assert vs[..m][i := v] == vs[i := v][..m];
    } else {
      assert vs[..m] == vs[i := v][..m];
    }
  }

  /** The first of the first n volumes that holds the offset. */
  function FirstHolder(vs: seq<Volume>, n: nat, off: nat): (r: Option<Volume>)
    requires n <= |vs|
    ensures r.Some? <==> exists i: nat {:trigger Holds(vs, i, off)} :: i < n && Holds(vs, i, off)
    ensures r.Some? ==> r.value in vs[..n] && r.value.Present? && r.value.offset <= off < r.value.offset + r.value.size
  {
    if n == 0 then None
    else
      var r := FirstHolder(vs, n - 1, off);
      if r.Some? then r else if Holds(vs, n - 1, off) then Some(vs[n - 1]) else None
  }

  /** The header of the root volume, if the table has a volume that holds offset 0. */
  function RootHeader(t: Table, devs: seq<Device>): Option<Header>
    requires |t.volumes| == MAX_VOLUMES && t.nvolumes <= MAX_VOLUMES
    reads devs
  {
    var v := FirstHolder(t.volumes, t.nvolumes, 0);
    if v.Some? && v.value.dev in devs then HeaderOf(v.value.dev) else None
  }

  /** Opening the devices in this order gives this table. */
  ghost predicate Opens(devs: seq<Device>, t: Table)
    reads devs
  {
    var r := AddAll(devs);
    && r.Some? && Verified(r.value, RootHeader(r.value, devs))
    && t == if r.value.version >= MULTI_VOLUMES then r.value else r.value.(nvolumes := 1)
  }

  function Count(vs: seq<Volume>): (n: nat)
    ensures n <= |vs|
  {
    if vs == [] then 0 else Count(vs[..|vs| - 1]) + if vs[|vs| - 1].Present? then 1 else 0
  }

  function Sum(vs: seq<Volume>): nat {
    if vs == [] then 0 else Sum(vs[..|vs| - 1]) + if vs[|vs| - 1].Present? then vs[|vs| - 1].size else 0
  }

  /** The checks of `hammer2_verify_volumes_common` on one volume. */
  predicate CommonOk(vs: seq<Volume>, i: nat)
    requires i < |vs|
  {
    vs[i].Present? ==>
      && (forall j {:trigger vs[j]} :: 0 <= j < i && vs[j].Present? ==> vs[j].dev != vs[i].dev)
      && vs[i].offset != NOWHERE && vs[i].size != NOWHERE && 0 < vs[i].size <= vs[i].dev.size
  }

  /** The checks come to a volume whose slot number is not less than the number of volumes. */
  predicate Overruns(vs: seq<Volume>, i: nat)
    requires i < |vs|
  {
    vs[i].Present? && i >= Count(vs) && forall k: nat {:trigger CommonOk(vs, k)} :: k < i ==> CommonOk(vs, k)
  }

  /** Nothing behind a volume that the checks refuse is looked at. */
  lemma NoneBehind(vs: seq<Volume>, i: nat)
    requires i < |vs| && !CommonOk(vs, i)
    ensures forall k: nat {:trigger Overruns(vs, k)} :: i < k < |vs| ==> !Overruns(vs, k)
  {}

  /** No empty slot in front of a volume. */
  predicate Gapless(vs: seq<Volume>) {
    forall i, j {:trigger vs[i], vs[j]} :: 0 <= i < j < |vs| && vs[j].Present? ==> vs[i].Present?
  }

  /** The slot numbers are all less than the number of volumes exactly in tables without gaps. */
  lemma {:induction false} SlotsInRange(vs: seq<Volume>)
    ensures (forall i {:trigger vs[i]} :: 0 <= i < |vs| && vs[i].Present? ==> i < Count(vs)) <==> Gapless(vs)
  {
    var m := |vs| - 1;
    if m >= 0 {
      var w := vs[..m];
      SlotsInRange(w);
      CountFull(vs);
      CountFull(w);
      forall i | 0 <= i < m ensures w[i] == vs[i] {}
      if vs[m].Present? {
        if Gapless(vs) {
          forall i | 0 <= i < |vs| ensures vs[i].Present? {}
        }
      } else {
        if Gapless(w) {
          forall i, j {:trigger vs[i], vs[j]} | 0 <= i < j < |vs| && vs[j].Present? ensures vs[i].Present? {
            assert w[j].Present? && w[i].Present?;
          }
        }
        if Gapless(vs) {
          forall i, j {:trigger w[i], w[j]} | 0 <= i < j < |w| && w[j].Present? ensures w[i].Present? {
            assert vs[j].Present?;
          }
        }
      }
    }
  }

  /** Every slot counts exactly in a full table. */
  lemma {:induction false} CountFull(vs: seq<Volume>)
    ensures Count(vs) == |vs| <==> forall i {:trigger vs[i]} :: 0 <= i < |vs| ==> vs[i].Present?
  {
    var m := |vs| - 1;
    if m >= 0 {
      CountFull(vs[..m]);
      assert forall i :: 0 <= i < m ==> vs[..m][i] == vs[i];
    }
  }

  /** The checks of `hammer2_verify_volumes_2` on one volume: it follows the one before. */
  predicate ChainOk(vs: seq<Volume>, nvolumes: nat, i: nat)
    requires i < |vs|
  {
    vs[i].Present? ==>
      && vs[i].offset % LEVEL1 == 0
      && (i > 0 ==> vs[i - 1].Present? && vs[i].id == vs[i - 1].id + 1 && vs[i].offset == vs[i - 1].offset + vs[i - 1].size)
      && (i == 0 ==> vs[i].offset == 0)
      && (if i + 1 != nvolumes then vs[i].size >= LEVEL1 && vs[i].size % LEVEL1 == 0 else vs[i].size % ALIGN == 0)
  }

  predicate AllCommon(vs: seq<Volume>) {
    forall i: nat {:trigger CommonOk(vs, i)} :: i < |vs| ==> CommonOk(vs, i)
  }

  predicate AllChain(vs: seq<Volume>, nvolumes: nat) {
    forall i: nat {:trigger ChainOk(vs, nvolumes, i)} :: i < |vs| ==> ChainOk(vs, nvolumes, i)
  }

  predicate RootOk2(t: Table, root: Header) {
    && root.nvolumes == t.nvolumes && root.total == t.total && |root.loff| == MAX_VOLUMES
    && forall i {:trigger root.loff[i]} :: 0 <= i < MAX_VOLUMES ==> (root.loff[i] == NOWHERE <==> i >= t.nvolumes)
  }

  predicate RootOk1(root: Header) {
    root.nvolumes == 0 && root.total == 0 && |root.loff| == MAX_VOLUMES && forall i {:trigger root.loff[i]} ::
      0 <= i < MAX_VOLUMES ==> root.loff[i] == 0
  }

  predicate Ok2(t: Table) {
    Count(t.volumes) == t.nvolumes && AllChain(t.volumes, t.nvolumes)
  }

  predicate Ok1(t: Table)
    requires |t.volumes| == MAX_VOLUMES
  {
    && Count(t.volumes) == 1 && t.volumes[0].Present? && t.volumes[0].id == 0
    && t.volumes[0].offset == 0 && t.volumes[0].size % ALIGN == 0
  }

  /** What the verification accepts, given the root volume's header if it could be found. */
  predicate Verified(t: Table, root: Option<Header>)
    requires |t.volumes| == MAX_VOLUMES
  {
    && t.version != -1 && (root.Some? ==> root.value.id == 0 && root.value.fstype == FSTYPE)
    && AllCommon(t.volumes)
    && if t.version >= MULTI_VOLUMES then
         Ok2(t) && (root.Some? ==> RootOk2(t, root.value))
       else
         Ok1(t) && (root.Some? ==> RootOk1(root.value))
  }

  /** Volume i holds the offset. */
  predicate Holds(vs: seq<Volume>, i: nat, off: nat)
    requires i < |vs|
  {
    vs[i].Present? && vs[i].offset <= off < vs[i].offset + vs[i].size
  }

  predicate Prior(vs: seq<Volume>, i: nat) { 0 < i < |vs| && vs[i].Present? ==> vs[i - 1].Present? }

  /** A table whose volumes follow each other is filled from the front. */
  lemma {:induction false} Packed(vs: seq<Volume>)
    requires forall i: nat {:trigger Prior(vs, i)} :: i < |vs| ==> Prior(vs, i)
    ensures forall i {:trigger vs[i]} :: 0 <= i < |vs| ==> (vs[i].Present? <==> i < Count(vs))
  {
    if |vs| > 0 {
      var front := vs[..|vs| - 1];
      forall i: nat {:trigger Prior(front, i)} | i < |front|
        ensures Prior(front, i)
      {
        assert Prior(vs, i);
      }
      Packed(front);
      assert Prior(vs, |vs| - 1);
      forall i {:trigger vs[i]} | 0 <= i < |vs|
        ensures vs[i].Present? <==> i < Count(vs)
      {
        if i < |front| { assert front[i] == vs[i]; }
        if |front| > 0 { assert front[|front| - 1] == vs[|vs| - 2]; }
      }
    }
  }

  /** What `Verified` gives for either version. */
  predicate Chained(vs: seq<Volume>, n: nat) {
    && n <= |vs| && (forall i {:trigger vs[i]} :: 0 <= i < |vs| ==> (vs[i].Present? <==> i < n))
    && forall i: nat {:trigger Follows(vs, i)} :: i < n ==> Follows(vs, i)
  }

  /** Volume i begins where the one before ends. */
  predicate Follows(vs: seq<Volume>, i: nat) {
    && i < |vs| && vs[i].Present?
    && if i == 0 then vs[i].offset == 0 else vs[i - 1].Present? && vs[i].offset == vs[i - 1].offset + vs[i - 1].size
  }

  lemma Packs(vs: seq<Volume>, n: nat)
    requires n == Count(vs) && AllChain(vs, n)
    ensures Chained(vs, n)
  {
    forall i: nat {:trigger Prior(vs, i)} | i < |vs|
      ensures Prior(vs, i)
    {
      assert ChainOk(vs, n, i);
    }
    Packed(vs);
    forall i: nat {:trigger Follows(vs, i)} | i < n
      ensures Follows(vs, i)
    {
      assert ChainOk(vs, n, i) && Prior(vs, i);
    }
  }

  lemma {:induction false} OnlyFirst(vs: seq<Volume>)
    requires |vs| > 0 && vs[0].Present? && Count(vs) == 1
    ensures forall i {:trigger vs[i]} :: 0 < i < |vs| ==> vs[i].Absent?
  {
    if |vs| > 1 {
      var front := vs[..|vs| - 1];
      assert front[0] == vs[0];
      SomeCount(front);
      OnlyFirst(front);
      assert forall i {:trigger vs[i]} :: 0 <= i < |front| ==> front[i] == vs[i];
    }
  }

  lemma {:induction false} SomeCount(vs: seq<Volume>)
    requires |vs| > 0 && vs[0].Present?
    ensures Count(vs) >= 1
  {
    if |vs| > 1 { SomeCount(vs[..|vs| - 1]); }
  }

  /** A verified table of either version is a chain of at least one volume. */
  lemma VerifiedChain(t: Table, root: Option<Header>)
    requires |t.volumes| == MAX_VOLUMES && Verified(t, root)
    ensures Chained(t.volumes, Count(t.volumes))
    ensures t.version >= MULTI_VOLUMES ==> Count(t.volumes) == t.nvolumes
    ensures t.version < MULTI_VOLUMES ==> Count(t.volumes) == 1
  {
    if t.version >= MULTI_VOLUMES {
      assert Ok2(t);
      Packs(t.volumes, t.nvolumes);
    } else {
      assert Ok1(t);
      OnlyFirst(t.volumes);
    }
  }

  lemma {:induction false} SumIs(vs: seq<Volume>, n: nat, k: nat)
    requires Chained(vs, n) && k <= n
    ensures Sum(vs[..k]) == if k == 0 then 0 else vs[k - 1].offset + vs[k - 1].size
  {
    if k > 0 {
      SumIs(vs, n, k - 1);
      assert Follows(vs, k - 1);
      assert vs[..k][..k - 1] == vs[..k - 1];
      assert vs[..k][k - 1] == vs[k - 1];
    }
  }

  lemma {:induction false} Before(vs: seq<Volume>, n: nat, i: nat, j: nat)
    requires Chained(vs, n) && i < j < n
    ensures vs[i].offset + vs[i].size <= vs[j].offset
  {
    assert Follows(vs, j);
    if i < j - 1 {
      Before(vs, n, i, j - 1);
    }
  }

  lemma {:induction false} FoundIn(vs: seq<Volume>, n: nat, k: nat, off: nat) returns (i: nat)
    requires Chained(vs, n) && k <= n && off < Sum(vs[..k])
    ensures i < k && Holds(vs, i, off)
  {
    SumIs(vs, n, k);
    SumIs(vs, n, k - 1);
    assert Follows(vs, k - 1);
    if off < Sum(vs[..k - 1]) {
      i := FoundIn(vs, n, k - 1, off);
    } else {
      i := k - 1;
    }
  }

  /** The offset is held by volume i and by no other. */
  predicate OnlyHolder(vs: seq<Volume>, i: nat, off: nat)
    requires i < |vs|
  {
    Holds(vs, i, off) && forall j {:trigger vs[j]} :: 0 <= j < |vs| && Holds(vs, j, off) ==> j == i
  }

  /** The volumes lie end to end: an offset that a volume holds is below the sum of the sizes
      and is held by no other volume. */
  lemma HeldOnce(vs: seq<Volume>, n: nat, off: nat, i: nat)
    requires Chained(vs, n) && i < |vs| && Holds(vs, i, off)
    ensures off < Sum(vs[..n]) && OnlyHolder(vs, i, off)
  {
    SumIs(vs, n, n);
    if i < n - 1 { Before(vs, n, i, n - 1); }
    forall j | 0 <= j < |vs| && Holds(vs, j, off)
      ensures j == i
    {
      if i < j { Before(vs, n, i, j); }
      if j < i { Before(vs, n, j, i); }
    }
  }

  /** Each offset below the total size of a verified table is held by exactly one volume, and no
      offset at or above it is held by any. */
  lemma CoveredOnce(t: Table, root: Option<Header>, off: nat)
    requires |t.volumes| == MAX_VOLUMES && Verified(t, root) && t.total == Sum(t.volumes)
    ensures off < t.total <==> exists i: nat {:trigger Holds(t.volumes, i, off)} :: i < MAX_VOLUMES && Holds(t.volumes, i, off)
    ensures forall i: nat {:trigger Holds(t.volumes, i, off)} ::
      i < MAX_VOLUMES && Holds(t.volumes, i, off) ==> OnlyHolder(t.volumes, i, off)
  {
    hide Verified;
    VerifiedChain(t, root);
    var n := Count(t.volumes);
    NothingAfter(t.volumes, n);
    if off < t.total {
      var i := FoundIn(t.volumes, n, n, off);
    }
    forall i: nat {:trigger Holds(t.volumes, i, off)} | i < MAX_VOLUMES && Holds(t.volumes, i, off)
      ensures off < t.total && OnlyHolder(t.volumes, i, off)
    {
      HeldOnce(t.volumes, n, off, i);
    }
  }

  lemma {:induction false} NothingAfter(vs: seq<Volume>, n: nat)
    requires n <= |vs| && forall i {:trigger vs[i]} :: n <= i < |vs| ==> vs[i].Absent?
    ensures Sum(vs) == Sum(vs[..n])
  {
    if n < |vs| {
      NothingAfter(vs[..|vs| - 1], n);
      assert vs[..|vs| - 1][..n] == vs[..n];
    } else {
      assert vs[..n] == vs;
    }
  }

  lemma EmptySum()
    ensures Sum(NoVolumes) == 0
  {
    NothingAfter(NoVolumes, 0);
  }
}
