/** Opening what was formatted, with the devices in any order. */
module Reopen {
  import opened Basics
  import opened Volumes
  import opened Ondisk
  import opened Newfs
  import opened Format
  import opened Mkfs

  /** The header that formatting gives volume i. */
  function TheHeader(t: Table, areas: Areas, i: nat, av: seq<Device>): (h: Header)
    requires Laid(t, av) && i < |av|
    ensures HeaderShape(h)
  {
    HeaderFor(t, i, areas)
  }

  /** Every device shows the header that formatting gave it. */
  ghost predicate Shows(t: Table, areas: Areas, av: seq<Device>)
    requires Laid(t, av)
    reads av
  {
    forall i: nat {:trigger av[i]} :: i < |av| ==> HeaderOf(av[i]) == Some(TheHeader(t, areas, i, av))
  }

  /** No zone of the device above the volume's new size holds a good header of an earlier, longer
      life with a higher `mirror_tid` than a new filesystem has. */
  predicate NoNewerAbove(before: seq<Option<Header>>, size: nat)
    requires |before| == NUM_VOLHDRS
  {
    forall k :: 0 <= k < NUM_VOLHDRS && k * ZONE >= size && before[k].Some? ==> before[k].value.mirrorTid <= NEW_TID
  }

  /** A device shows its new header exactly if it held no such header. */
  lemma ShownIff(dev: Device, h: Header, size: nat, before: seq<Option<Header>>)
    requires |before| == NUM_VOLHDRS && Written(dev, h, size, before) && size > 0 && h.mirrorTid == NEW_TID
    ensures HeaderOf(dev) == Some(h) <==> NoNewerAbove(before, size)
  {
    var copies := dev.Copies(NUM_VOLHDRS);
    var n := if size <= ZONE then 1 else if size <= 2 * ZONE then 2 else if size <= 3 * ZONE then 3 else 4;
    assert forall k: nat :: k < NUM_VOLHDRS ==> copies[k] == dev.Copy(k) && (k < n <==> k * ZONE < size);
    FreshIsBest(copies, h, n);
  }

  /** After formatting all devices show their new headers exactly if none held such a header. */
  lemma ShownAfterFormat(t: Table, areas: Areas, av: seq<Device>, before: seq<seq<Option<Header>>>)
    requires Laid(t, av) && |before| == |av| && forall i: nat {:trigger before[i]} :: i < |av| ==> |before[i]| == NUM_VOLHDRS
    requires forall i: nat {:trigger av[i]} :: i < |av| ==> LaidAt(t.volumes[i], av[i], i) && OnDevice(t, areas, i, av[i], before[i])
    ensures Shows(t, areas, av) <==> forall i: nat {:trigger before[i]} :: i < |av| ==> NoNewerAbove(before[i], t.volumes[i].size)
  {
    hide Verified, NoNewerAbove, Written;
    forall i: nat | i < |av|
      ensures HeaderOf(av[i]) == Some(TheHeader(t, areas, i, av)) <==> NoNewerAbove(before[i], t.volumes[i].size)
    {
      assert LaidAt(t.volumes[i], av[i], i);
      ShownIff(av[i], TheHeader(t, areas, i, av), t.volumes[i].size, before[i]);
    }
  }

  /** A case where it does: a filesystem made smaller than the one before it, whose header in
      the second zone is found instead of the new one. */
  lemma OldHeaderWins(dev: Device, h: Header, was: Header)
    requires Written(dev, h, LEVEL1, [Some(was), Some(was), None, None]) && h.mirrorTid == NEW_TID && was.mirrorTid == 17
    ensures HeaderOf(dev) == Some(was)
  {
    var copies := dev.Copies(NUM_VOLHDRS);
    assert dev.Copy(0) == Some(h) && dev.Copy(1) == Some(was) && dev.Copy(2).None? && dev.Copy(3).None?;
    assert copies == [Some(h), Some(was), None, None];
    BestIs(copies);
    assert copies[0] == Some(h) && copies[1] == Some(was);
  }

  /** Where the super-root inode and the root inodes are looked for is where they were written. */
  lemma RootInodesFound(t: Table, av: seq<Device>, base: nat, labels: nat, ref: nat)
    requires Laid(t, av) && LaidAt(t.volumes[0], av[0], 0) && base % PBUF == 0 && base + PBUF <= t.volumes[0].size && labels <= MAXLABELS
    requires RootBlock(av[0], base, labels) && (ref == base + RADIX_MIN || ref in av[0].blocks[base].refs)
    ensures FirstHolder(t.volumes, t.nvolumes, ref / 64 * 64) == Some(t.volumes[0]) && ref / PBUF * PBUF == base
  {
    hide Verified;
    var off := ref / 64 * 64;
    OneOrMany(t, av, 0);
    SameBlock(base, ref);
    assert Holds(t.volumes, 0, off);
    FirstStays(t.volumes, 1, t.nvolumes, off);
  }

  lemma SameBlock(base: nat, ref: nat)
    requires base % PBUF == 0 && base <= ref < base + PBUF
    ensures base <= ref / 64 * 64 <= ref && ref / PBUF * PBUF == base
  {
    SameQuotient(base / PBUF, ref);
    NotBelow(1024 * (base / PBUF), ref);
  }

  lemma SameQuotient(m: nat, ref: nat)
    requires m * PBUF <= ref < m * PBUF + PBUF
    ensures ref / PBUF == m
  {}

  lemma NotBelow(k: nat, ref: nat)
    requires 64 * k <= ref
    ensures 64 * k <= ref / 64 * 64 <= ref
  {}

  /** The volumes of the devices that were listed so far. */
  function Part(t: Table, av: seq<Device>, list: seq<Device>): (vs: seq<Volume>)
    requires Laid(t, av)
    ensures |vs| == MAX_VOLUMES && forall k: nat {:trigger vs[k]} :: k < MAX_VOLUMES ==>
      vs[k] == if k < |av| && av[k] in list then t.volumes[k] else Absent
  {
    PartUpTo(t, av, list, MAX_VOLUMES)
  }

  function PartUpTo(t: Table, av: seq<Device>, list: seq<Device>, n: nat): (vs: seq<Volume>)
    requires Laid(t, av) && n <= MAX_VOLUMES
    ensures |vs| == n && forall k: nat {:trigger vs[k]} :: k < n ==> vs[k] == if k < |av| && av[k] in list then t.volumes[k] else Absent
  {
    if n == 0 then []
    else PartUpTo(t, av, list, n - 1) + [if n <= |av| && av[n - 1] in list then t.volumes[n - 1] else Absent]
  }

  function PartTable(t: Table, av: seq<Device>, list: seq<Device>): Table
    requires Laid(t, av)
  {
    if list == [] then Empty
    else Table(t.version, if t.version >= MULTI_VOLUMES then t.nvolumes else 0, t.fsid, FSTYPE, Part(t, av, list), Sum(Part(t, av, list)))
  }

  lemma IndexOf(av: seq<Device>, d: Device) returns (j: nat)
    requires d in av
    ensures j < |av| && av[j] == d
  {
    j :| 0 <= j < |av| && av[j] == d;
  }

  lemma LaidOne(t: Table, av: seq<Device>)
    requires Laid(t, av) && t.version < MULTI_VOLUMES
    ensures |av| == 1
  {
    assert Ok1(t);
    CountFilled(t.volumes, |av|);
  }

  /** What the table takes from a header. */
  lemma HeaderIs(t: Table, areas: Areas, j: nat, av: seq<Device>)
    requires Laid(t, av) && j < |av|
    ensures var h := TheHeader(t, areas, j, av); h.id == j && h.version == t.version && h.fsid == t.fsid && h.fstype == FSTYPE
    ensures var h := TheHeader(t, areas, j, av); h.loff[j] == t.volumes[j].offset && h.size == t.volumes[j].size
    ensures var h := TheHeader(t, areas, j, av); h.nvolumes == if t.version >= MULTI_VOLUMES then t.nvolumes else 0
  {
    OneOrMany(t, av, j);
  }

  lemma OnlyOne(av: seq<Device>, list: seq<Device>, d: Device)
    requires d in av && forall e :: e in list ==> e in av
    ensures |av| == 1 && list != [] ==> d in list
  {
    if |av| == 1 && list != [] {
      assert list[0] in list && av[0] == d;
    }
  }

  /** Adding one more device. */
  lemma AddNext(t: Table, areas: Areas, av: seq<Device>, list: seq<Device>, d: Device)
    requires Laid(t, av) && Shows(t, areas, av) && d in av && forall e :: e in list ==> e in av
    ensures Add(PartTable(t, av, list), d) == if d in list then None else Some(PartTable(t, av, list + [d]))
  {
    hide Verified, Vacant, Sum, HeaderFor, Chained;
    var j := IndexOf(av, d);
    var part, next := PartTable(t, av, list), PartTable(t, av, list + [d]);
    var v, h := t.volumes[j], TheHeader(t, areas, j, av);
    assert LaidAt(v, d, j);
    OneOrMany(t, av, j);
    assert Part(t, av, []) == NoVolumes;
    assert part.volumes == Part(t, av, list);
    HeaderIs(t, areas, j, av);
    if d in list {
      assert part.volumes[j].Present?;
    } else {
      assert part.volumes[j].Absent?;
      assert next.volumes == part.volumes[j := v];
      SumInstall(part.volumes, j, v);
      EmptySum();
      assert v == Present(d, j, h.loff[j], h.size);
      OnlyOne(av, list, d);
    }
  }

  lemma OneOrMany(t: Table, av: seq<Device>, j: nat)
    requires Laid(t, av) && j < |av|
    ensures t.version < MULTI_VOLUMES ==> |av| == 1
    ensures LaidAt(t.volumes[j], av[j], j) && (j == 0 ==> t.volumes[0].offset == 0)
  {
    assert LaidAt(t.volumes[j], av[j], j);
    assert Follows(t.volumes, 0);
    if t.version < MULTI_VOLUMES { LaidOne(t, av); }
  }

  /** After any list of the devices the table holds their volumes, unless one came twice. */
  lemma {:induction false} AddList(t: Table, areas: Areas, av: seq<Device>, list: seq<Device>)
    requires Laid(t, av) && Shows(t, areas, av) && forall e :: e in list ==> e in av
    ensures AddAll(list) == if Distinct(list) then Some(PartTable(t, av, list)) else None
  {
    if list != [] {
      var m := |list| - 1;
      var front, d := list[..m], list[m];
      AddList(t, areas, av, front);
      AddNext(t, areas, av, front, d);
      assert front + [d] == list;
      if Distinct(front) && d in front {
        var k :| 0 <= k < m && front[k] == d;
        assert list[k] == list[m];
      }
      if !Distinct(front) {
        var i, j :| 0 <= i < j < |front| && front[i] == front[j];
        assert list[i] == list[j];
      }
    }
  }

  /** All devices are listed. */
  ghost predicate All(av: seq<Device>, list: seq<Device>) { forall i :: 0 <= i < |av| ==> av[i] in list }

  lemma PartOfAll(t: Table, av: seq<Device>, list: seq<Device>)
    requires Laid(t, av) && All(av, list)
    ensures Part(t, av, list) == t.volumes
  {
    forall k | 0 <= k < MAX_VOLUMES
      ensures Part(t, av, list)[k] == t.volumes[k]
    {
      assert t.volumes[k].Present? <==> k < |av|;
    }
  }

  lemma MissingFails(t: Table, av: seq<Device>, list: seq<Device>, root: Option<Header>)
    requires Laid(t, av) && Verified(PartTable(t, av, list), root)
    ensures list != [] && All(av, list)
  {
    var p := PartTable(t, av, list);
    assert list != [];
    VerifiedChain(p, root);
    OneOrMany(t, av, 0);
    forall i | 0 <= i < |av|
      ensures av[i] in list
    {
      assert p.volumes[i].Present? <==> i < Count(p.volumes);
    }
  }

  /** A listed device has one in front of it that is not listed. */
  ghost predicate Skips(av: seq<Device>, list: seq<Device>) {
    exists j, k :: 0 <= j < k < |av| && av[j] !in list && av[k] in list
  }

  lemma PartCommon(t: Table, av: seq<Device>, list: seq<Device>)
    requires Laid(t, av)
    ensures AllCommon(Part(t, av, list))
  {
    var vs := Part(t, av, list);
    forall i: nat | i < |vs| ensures CommonOk(vs, i) {
      assert CommonOk(t.volumes, i);
      forall j {:trigger vs[j]} | 0 <= j < i && vs[j].Present? ensures vs[j] == t.volumes[j] {}
    }
  }

  lemma PartGapless(t: Table, av: seq<Device>, list: seq<Device>)
    requires Laid(t, av)
    ensures Gapless(Part(t, av, list)) <==> !Skips(av, list)
  {
    var vs := Part(t, av, list);
    forall k: nat | k < |av| ensures vs[k].Present? <==> av[k] in list {
      OneOrMany(t, av, k);
    }
    if j, k :| 0 <= j < k < |av| && av[j] !in list && av[k] in list {
      assert vs[j].Absent? && vs[k].Present?;
    }
  }

  /** Which lists of the formatted devices make the check of the table go past its stat entries:
      exactly those that leave out a device and list a later one. */
  lemma OverrunsIff(t: Table, areas: Areas, av: seq<Device>, list: seq<Device>)
    requires Laid(t, av) && Shows(t, areas, av) && Distinct(list) && forall e :: e in list ==> e in av
    ensures AddAll(list).Some?
    ensures var vs := AddAll(list).value.volumes;
      (exists i: nat {:trigger Overruns(vs, i)} :: i < MAX_VOLUMES && Overruns(vs, i)) <==> Skips(av, list)
  {
    hide Laid, Shows, Distinct, Skips, Count, CommonOk, Sum;
    AddList(t, areas, av, list);
    var vs := Part(t, av, list);
    NoneListed(t, av);
    PartCommon(t, av, list);
    PartGapless(t, av, list);
    SlotsInRange(vs);
    forall i: nat | i < MAX_VOLUMES ensures Overruns(vs, i) <==> vs[i].Present? && i >= Count(vs) {}
  }

  lemma NoneListed(t: Table, av: seq<Device>)
    requires Laid(t, av)
    ensures Part(t, av, []) == NoVolumes
  {
    hide Vacant;
  }

  /** A case: only the second of the formatted devices is listed. */
  lemma SecondAlone(t: Table, areas: Areas, av: seq<Device>)
    requires Laid(t, av) && Shows(t, areas, av) && |av| >= 2
    ensures AddAll([av[1]]).Some? && |AddAll([av[1]]).value.volumes| == MAX_VOLUMES && Overruns(AddAll([av[1]]).value.volumes, 1)
  {
    var list := [av[1]];
    OverrunsIff(t, areas, av, list);
    AddList(t, areas, av, list);
    OneOrMany(t, av, 0);
    assert av[0] != av[1];
    hide Laid, Overruns, Count;
    assert av[0] !in list && av[1] in list;
    var vs := Part(t, av, list);
    var i: nat :| i < MAX_VOLUMES && Overruns(vs, i);
    OnlyPresent(t, av, i);
  }

  lemma OnlyPresent(t: Table, av: seq<Device>, i: nat)
    requires Laid(t, av) && |av| >= 2 && i < MAX_VOLUMES && Overruns(Part(t, av, [av[1]]), i)
    ensures i == 1
  {
    hide Count;
    assert Part(t, av, [av[1]])[i].Present?;
  }

  /** The header of the root volume passes the checks. */
  lemma RootPasses(t: Table, areas: Areas, av: seq<Device>)
    requires Laid(t, av)
    ensures var h := TheHeader(t, areas, 0, av); h.id == 0 && h.fstype == FSTYPE && (t.version >= MULTI_VOLUMES ==> RootOk2(t, h))
  {
    hide Verified;
    var h := TheHeader(t, areas, 0, av);
    if t.version >= MULTI_VOLUMES {
      forall i | 0 <= i < MAX_VOLUMES
        ensures h.loff[i] == NOWHERE <==> i >= t.nvolumes
      {
        if i < t.nvolumes {
          assert LaidAt(t.volumes[i], av[i], i);
          NeverNowhere(t, i);
        }
      }
    }
  }

  lemma NeverNowhere(t: Table, i: nat)
    requires |t.volumes| == MAX_VOLUMES && Verified(t, None) && i < MAX_VOLUMES && t.volumes[i].Present?
    ensures t.volumes[i].offset != NOWHERE
  {
    assert CommonOk(t.volumes, i);
  }

  /** Opening the devices of a formatted filesystem succeeds exactly if all are listed and none
      twice, in any order, and it always gives the table that was formatted. */
  lemma AnyOrder(t: Table, areas: Areas, av: seq<Device>, list: seq<Device>)
    requires Laid(t, av) && Shows(t, areas, av) && forall e :: e in list ==> e in av
    ensures (exists u :: Opens(list, u)) <==> Distinct(list) && All(av, list)
    ensures forall u :: Opens(list, u) ==> u == t
  {
    hide Verified;
    AddList(t, areas, av, list);
    if Distinct(list) {
      var p := PartTable(t, av, list);
      var root := RootHeader(p, list);
      if All(av, list) {
        OpensAll(t, areas, av, list);
      } else if Verified(p, root) {
        MissingFails(t, av, list, root);
      }
    }
  }

  lemma OpensAll(t: Table, areas: Areas, av: seq<Device>, list: seq<Device>)
    requires Laid(t, av) && Shows(t, areas, av) && (forall e :: e in list ==> e in av)
    requires AddAll(list) == Some(PartTable(t, av, list)) && All(av, list)
    ensures Opens(list, t) && forall u :: Opens(list, u) ==> u == t
  {
    var p := PartTable(t, av, list);
    var root := RootHeader(p, list);
    assert av[0] in list;
    PartOfAll(t, av, list);
    OneOrMany(t, av, 0);
    RootPasses(t, areas, av);
    RootIs(t, areas, av, list);
    SameVerdict(t, p, root);
  }

  /** The root volume is found by offset 0, or not at all at the old version. */
  lemma RootIs(t: Table, areas: Areas, av: seq<Device>, list: seq<Device>)
    requires Laid(t, av) && Shows(t, areas, av) && All(av, list) && list != []
    ensures var p := PartTable(t, av, list);
      RootHeader(p, list) == if t.version >= MULTI_VOLUMES then Some(TheHeader(t, areas, 0, av)) else None
  {
    hide Verified;
    PartOfAll(t, av, list);
    OneOrMany(t, av, 0);
    if t.version >= MULTI_VOLUMES {
      assert av[0] in list;
      assert Holds(t.volumes, 0, 0);
      FirstStays(t.volumes, 1, t.nvolumes, 0);
    }
  }

  lemma SameVerdict(t: Table, p: Table, root: Option<Header>)
    requires |t.volumes| == MAX_VOLUMES && Verified(t, None) && p.version == t.version && p.volumes == t.volumes
    requires p.total == t.total && (t.version >= MULTI_VOLUMES ==> p.nvolumes == t.nvolumes)
    requires root.Some? ==> t.version >= MULTI_VOLUMES && root.value.id == 0 && root.value.fstype == FSTYPE && RootOk2(t, root.value)
    ensures Verified(p, root)
  {
    if t.version >= MULTI_VOLUMES {
      assert Ok2(t) && Ok2(p);
    } else {
      assert Ok1(t) && Ok1(p);
    }
  }
}
