/** The table of volumes of an open filesystem, filled one device at a time. */
module Ondisk {
  import opened Basics
  import opened Volumes

  class VolumeTable {
    var version: int
    var nvolumes: nat
    var fsid: nat
    var fstype: nat
    var total: nat
    const volumes: array<Volume>

    ghost predicate Valid()
      reads this, volumes
    {
      volumes.Length == MAX_VOLUMES && nvolumes <= MAX_VOLUMES
    }

    ghost function Contents(): Table
      reads this, volumes
    {
      Table(version, nvolumes, fsid, fstype, volumes[..], total)
    }

    /** `hammer2_init_ondisk`. */
    constructor ()
      ensures Valid() && fresh(volumes) && Contents() == Empty
    {
      version, nvolumes, fsid, fstype, total := -1, 0, 0, 0, 0;
      volumes := new Volume[MAX_VOLUMES](_ => Absent);
      new;
      assert volumes[..] == NoVolumes;
    }

    /** `hammer2_add_volume`. */
    method AddVolume(dev: Device) returns (ok: bool)
      requires Valid()
      modifies this, volumes
      ensures Valid() && ok == Add(old(Contents()), dev).Some?
      ensures Contents() == if ok then Add(old(Contents()), dev).value else old(Contents())
    {
      var h := ReadVolumeHeader(dev);
      if h.None? {
        return false;
      }
      BestIs(dev.Copies(NUM_VOLHDRS));
      var vd := h.value;
      if vd.id >= MAX_VOLUMES || volumes[vd.id].Present? {
        return false;
      }
      if nvolumes == 0 {
        version, nvolumes, fsid, fstype := vd.version, vd.nvolumes, vd.fsid, vd.fstype;
      } else if version != vd.version || nvolumes != vd.nvolumes || fsid != vd.fsid || fstype != vd.fstype {
        return false;
      }
      volumes[vd.id] := Present(dev, vd.id, vd.loff[vd.id], vd.size);
      total := total + vd.size;
      return true;
    }

    /** The volumes counted in the table. */
    method CountVolumes() returns (n: nat)
      requires Valid()
      ensures n == Count(volumes[..])
    {
      n := 0;
      var i := 0;
      while i < MAX_VOLUMES
        invariant 0 <= i <= MAX_VOLUMES && n == Count(volumes[..i])
      {
        assert volumes[..i + 1][..i] == volumes[..i];
        if volumes[i].Present? { n := n + 1; }
        i := i + 1;
      }
      assert volumes[..i] == volumes[..];
    }

    /** The loop of `hammer2_verify_volumes_common`.  The tool has one `stat` entry for each volume
        in the table, and uses the one with the number of the slot; `over` says that there is no
        such entry. */
    method CheckCommon() returns (ok: bool, over: bool)
      requires Valid()
      ensures ok == AllCommon(volumes[..])
      ensures over <==> exists i: nat {:trigger Overruns(volumes[..], i)} :: i < MAX_VOLUMES && Overruns(volumes[..], i)
    {
      hide Count;
      ghost var vs := volumes[..];
      var stats := CountVolumes();
      var i: nat := 0;
      over := false;
      while i < MAX_VOLUMES
        invariant 0 <= i <= MAX_VOLUMES && vs == volumes[..]
        invariant forall k: nat {:trigger CommonOk(vs, k)} :: k < i ==> CommonOk(vs, k)
        invariant over <==> exists k: nat {:trigger Overruns(vs, k)} :: k < i && Overruns(vs, k)
      {
        var vol := volumes[i];
        assert vs[i] == vol;
        over := over || (vol.Present? && i >= stats);
        assert Overruns(vs, i) <==> vol.Present? && i >= stats;
        if vol.Present? {
          var j := 0;
          while j < i
            invariant 0 <= j <= i && vs == volumes[..]
            invariant forall k {:trigger vs[k]} :: 0 <= k < j && vs[k].Present? ==> vs[k].dev != vol.dev
          {
            if volumes[j].Present? && volumes[j].dev == vol.dev {
              assert vs[j].dev == vs[i].dev && !CommonOk(vs, i);
              NoneBehind(vs, i);
              return false, over;
            }
            j := j + 1;
          }
          if vol.offset == NOWHERE || vol.size == NOWHERE || vol.size > vol.dev.size || vol.size == 0 {
            assert !CommonOk(vs, i);
            NoneBehind(vs, i);
            return false, over;
          }
        }
        assert CommonOk(vs, i);
        i := i + 1;
      }
      ok := true;
    }

    /** The loop of `hammer2_verify_volumes_2`. */
    method CheckChain() returns (ok: bool)
      requires Valid()
      ensures ok == AllChain(volumes[..], nvolumes)
    {
      ghost var vs := volumes[..];
      var i: nat := 0;
      while i < MAX_VOLUMES
        invariant i <= MAX_VOLUMES && vs == volumes[..]
        invariant forall k: nat {:trigger ChainOk(vs, nvolumes, k)} :: k < i ==> ChainOk(vs, nvolumes, k)
      {
        var vol := volumes[i];
        if vol.Present? {
          if vol.offset % LEVEL1 != 0 {
            assert !ChainOk(vs, nvolumes, i);
            return false;
          }
          if i > 0 {
            var prev := volumes[i - 1];
            if prev.Absent? || vol.id != prev.id + 1 || vol.offset != prev.offset + prev.size {
              assert !ChainOk(vs, nvolumes, i);
              return false;
            }
          } else if vol.offset != 0 {
            assert !ChainOk(vs, nvolumes, i);
            return false;
          }
          if i + 1 != nvolumes {
            if vol.size < LEVEL1 || vol.size % LEVEL1 != 0 {
              assert !ChainOk(vs, nvolumes, i);
              return false;
            }
          } else if vol.size % ALIGN != 0 {
            assert !ChainOk(vs, nvolumes, i);
            return false;
          }
        }
        assert ChainOk(vs, nvolumes, i);
        i := i + 1;
      }
      return true;
    }

    /** The checks on the offsets in the root volume's header. */
    method CheckRoot2(root: Header) returns (ok: bool)
      requires Valid() && |root.loff| == MAX_VOLUMES
      ensures ok == RootOk2(Contents(), root)
    {
      if root.nvolumes != nvolumes || root.total != total {
        return false;
      }
      var i := 0;
      while i < MAX_VOLUMES
        invariant 0 <= i <= MAX_VOLUMES
        invariant forall k {:trigger root.loff[k]} :: 0 <= k < i ==> (root.loff[k] == NOWHERE <==> k >= nvolumes)
      {
        if (root.loff[i] == NOWHERE) != (i >= nvolumes) {
          return false;
        }
        i := i + 1;
      }
      return true;
    }

    method CheckRoot1(root: Header) returns (ok: bool)
      requires |root.loff| == MAX_VOLUMES
      ensures ok == RootOk1(root)
    {
      if root.nvolumes != 0 || root.total != 0 {
        return false;
      }
      var i := 0;
      while i < MAX_VOLUMES
        invariant 0 <= i <= MAX_VOLUMES
        invariant forall k {:trigger root.loff[k]} :: 0 <= k < i ==> root.loff[k] == 0
      {
        if root.loff[i] != 0 {
          return false;
        }
        i := i + 1;
      }
      return true;
    }

    /** `hammer2_verify_volumes`: accepts exactly the verified tables. */
    method Verify(root: Option<Header>) returns (ok: bool)
      requires Valid() && (root.Some? ==> |root.value.loff| == MAX_VOLUMES)
      modifies this`nvolumes
      ensures Valid() && ok == Verified(old(Contents()), root)
      ensures ok ==> Contents() == if version >= MULTI_VOLUMES then old(Contents()) else old(Contents()).(nvolumes := 1)
    {
      hide AllCommon, AllChain, Count, RootOk1, RootOk2;
      ghost var t := Contents();
      if version == -1 || (root.Some? && (root.value.id != 0 || root.value.fstype != FSTYPE)) {
        return false;
      }
      var common, over := CheckCommon();
      if !common {
        return false;
      }
      var n := CountVolumes();
      if version >= MULTI_VOLUMES {
        if nvolumes != n {
          assert !Ok2(t);
          return false;
        }
        if root.Some? {
          var good := CheckRoot2(root.value);
          if !good {
            return false;
          }
        }
        ok := CheckChain();
        assert ok == Ok2(t);
      } else {
        if n != 1 {
          assert !Ok1(t);
          return false;
        }
        nvolumes := n;
        if root.Some? {
          var good := CheckRoot1(root.value);
          if !good {
            return false;
          }
        }
        var vol := volumes[0];
        ok := vol.Present? && vol.id == 0 && vol.offset == 0 && vol.size % ALIGN == 0;
        assert ok == Ok1(t);
      }
    }

    /** `hammer2_get_volume`. */
    method GetVolume(offset: nat) returns (r: Option<Volume>)
      requires Valid()
      ensures r == FirstHolder(volumes[..], nvolumes, offset / 64 * 64)
    {
      var off := offset / 64 * 64;
      var i: nat := 0;
      while i < nvolumes
        invariant i <= nvolumes && FirstHolder(volumes[..], i, off).None?
      {
        var vol := volumes[i];
        assert Holds(volumes[..], i, off) <==> vol.Present? && vol.offset <= off < vol.offset + vol.size;
        if vol.Present? && off >= vol.offset && off < vol.offset + vol.size {
          FirstStays(volumes[..], i + 1, nvolumes, off);
          return Some(vol);
        }
        i := i + 1;
      }
      return None;
    }

    /** `hammer2_init_volumes`. */
    method InitVolumes(devs: seq<Device>) returns (ok: bool)
      requires Valid() && Contents() == Empty
      modifies this, volumes
      ensures Valid() && (ok <==> exists t :: Opens(devs, t))
      ensures ok ==> Opens(devs, Contents())
    {
      hide Add, AddAll, Verified, HeaderOf, Vacant, FirstHolder, Sum;
      var i := 0;
      AddedNone();
      while i < |devs|
        invariant 0 <= i <= |devs| && Valid() && AddAll(devs[..i]) == Some(Contents())
      {
        AddedOne(devs, i);
        var added := AddVolume(devs[i]);
        if !added {
          NeverAdded(devs, i + 1);
          return false;
        }
        i := i + 1;
      }
      assert devs[..i] == devs;
      AddedAll(devs);
      ghost var t := Contents();
      var v := GetVolume(0);
      var root: Option<Header> := None;
      if v.Some? {
        root := ReadVolumeHeader(v.value.dev);
        HeaderShaped(v.value.dev);
        assert v.value.dev in devs;
      }
      assert root == RootHeader(t, devs);
      ok := Verify(root);
      assert ok ==> Opens(devs, Contents());
    }
  }

  lemma HeaderShaped(dev: Device)
    ensures HeaderOf(dev).Some? ==> |HeaderOf(dev).value.loff| == MAX_VOLUMES
  {
    BestIs(dev.Copies(NUM_VOLHDRS));
  }

  lemma {:induction false} FirstStays(vs: seq<Volume>, m: nat, n: nat, off: nat)
    requires m <= n <= |vs| && FirstHolder(vs, m, off).Some?
    ensures FirstHolder(vs, n, off) == FirstHolder(vs, m, off)
  {
    if m < n { FirstStays(vs, m, n - 1, off); }
  }

  lemma AddedNone()
    ensures AddAll([]) == Some(Empty)
  {}

  lemma AddedOne(devs: seq<Device>, i: nat)
    requires i < |devs|
    ensures var r := AddAll(devs[..i]); AddAll(devs[..i + 1]) == if r.None? then None else Add(r.value, devs[i])
  {
    assert devs[..i + 1][..i] == devs[..i];
  }

  lemma {:induction false} NeverAdded(devs: seq<Device>, i: nat)
    requires i <= |devs| && AddAll(devs[..i]).None?
    ensures AddAll(devs).None?
    decreases |devs| - i
  {
    if i < |devs| {
      AddedOne(devs, i);
      NeverAdded(devs, i + 1);
    } else {
      assert devs[..i] == devs;
    }
  }

  /** Every volume in the table is one of the devices, and its header could be read. */
  lemma AddedAll(devs: seq<Device>)
    ensures var r := AddAll(devs); r.Some? ==> forall v :: v in r.value.volumes && v.Present? ==> v.dev in devs
  {}
}
