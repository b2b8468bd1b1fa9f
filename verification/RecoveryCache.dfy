/** The block cache of the recovery command: 16 slots, least recently used first out. */
module RecoveryCache {
  import opened Basics

  const SDCCOUNT := 16
  const PBUFSIZE := 65536

  datatype Volume = Volume(id: nat, offset: nat)

  /** A slot: its buffer, and which block of which volume it holds (offset -1: none). */
  datatype Slot = Slot(buf: seq<byte>, offset: int, vol: Option<nat>, last: int)

  /** Where a read went: a part of a slot's buffer. */
  datatype View = View(slot: nat, start: nat)

  /** The physical offset and size that an offset with an embedded radix asks for. */
  function Poff(off: nat, v: Volume): nat
    requires v.offset <= off
  {
    (off - v.offset) / 32 * 32
  }

  function Pbase(poff: nat): (b: nat)
    ensures b <= poff < b + 65536 && b % 65536 == 0
  {
    poff / 65536 * 65536
  }

  function Bytes(off: nat): nat { Pow2(off % 32) }

  /** The read lies within one buffer and is aligned to its size. */
  predicate Fits(poff: nat, bytes: nat)
    requires bytes > 0
  {
    poff / 65536 == (poff + bytes - 1) / 65536 && poff % bytes == 0
  }

  lemma FitsInside(poff: nat, bytes: nat)
    requires bytes > 0 && Fits(poff, bytes)
    ensures poff - Pbase(poff) + bytes <= 65536
  {}

  /** The slot holds a block. */
  predicate Used(s: Slot) { s.vol.Some? && s.offset >= 0 }

  ghost predicate SlotOk(media: (nat, nat) -> seq<byte>, clock: int, s: Slot) {
    && |s.buf| == PBUFSIZE && 0 <= s.last <= clock
    && (Used(s) ==> s.last > 0 && s.buf == media(s.vol.value, s.offset))
  }

  /** No block is held twice, and no two slots were used at the same time. */
  ghost predicate Apart(s: Slot, t: Slot) {
    (Used(s) && Used(t) ==> s.vol != t.vol || s.offset != t.offset) && (s.last > 0 ==> s.last != t.last)
  }

  /** Used slots hold what is on the media. */
  ghost predicate SlotsOk(media: (nat, nat) -> seq<byte>, clock: int, slots: seq<Slot>) {
    && |slots| == SDCCOUNT && clock >= 0
    && (forall i {:trigger slots[i]} :: 0 <= i < SDCCOUNT ==> SlotOk(media, clock, slots[i]))
    && (forall i, j {:trigger slots[i], slots[j]} :: 0 <= i < SDCCOUNT && 0 <= j < SDCCOUNT && i != j ==> Apart(slots[i], slots[j]))
  }

  /** The slots that were used later than `last`. */
  function Later(slots: seq<Slot>, last: int): (r: set<nat>)
    ensures forall j {:trigger j in r} :: j in r ==> j < |slots|
  {
    set j: nat | j < |slots| && slots[j].last > last
  }

  /** A slot is replaced by one that was never used or is used now: others age by at most one. */
  lemma AgeByOne(slots: seq<Slot>, i: nat, s: Slot, last: int)
    requires i < |slots|
    ensures |Later(slots[i := s], last)| <= |Later(slots, last)| + 1
  {
    var a, b := Later(slots, last), Later(slots[i := s], last);
    assert b <= a + {i};
    Smaller(b, a + {i});
  }

  lemma {:induction false} Smaller(a: set<nat>, b: set<nat>)
    requires a <= b
    ensures |a| <= |b|
  {
    assert b == a + (b - a);
  }

  /** The oldest slot, if it is used, has been overtaken by all others. */
  lemma OldestAge(media: (nat, nat) -> seq<byte>, clock: int, slots: seq<Slot>, i: nat)
    requires SlotsOk(media, clock, slots) && i < SDCCOUNT && slots[i].last > 0
    requires forall j {:trigger slots[j]} :: 0 <= j < SDCCOUNT ==> slots[i].last <= slots[j].last
    ensures |Later(slots, slots[i].last)| == SDCCOUNT - 1
  {
    var all := AllBelow(SDCCOUNT);
    forall j: nat ensures j in Later(slots, slots[i].last) <==> j in all - {i} {
      assert j < SDCCOUNT && j != i ==> Apart(slots[i], slots[j]);
    }
    assert Later(slots, slots[i].last) == all - {i};
  }

  function AllBelow(n: nat): (r: set<nat>)
    ensures |r| == n && forall j: nat {:trigger j in r} :: j in r <==> j < n
  {
    if n == 0 then {} else AllBelow(n - 1) + {n - 1}
  }

  lemma ReplaceOk(media: (nat, nat) -> seq<byte>, clock: int, slots: seq<Slot>, i: nat, s: Slot)
    requires SlotsOk(media, clock, slots) && i < SDCCOUNT && SlotOk(media, clock + 1, s) && (s.last == clock + 1 || s.last == 0)
    requires forall j {:trigger slots[j]} :: 0 <= j < SDCCOUNT && j != i && Used(s) && Used(slots[j]) ==>
      s.vol != slots[j].vol || s.offset != slots[j].offset
    ensures SlotsOk(media, clock + 1, slots[i := s])
  {
    var t := slots[i := s];
    forall j {:trigger t[j]} | 0 <= j < SDCCOUNT ensures SlotOk(media, clock + 1, t[j]) && (j != i ==> Apart(s, t[j]) && Apart(t[j], s)) {
      assert SlotOk(media, clock, slots[j]);
    }
    forall j, k {:trigger t[j], t[k]} | 0 <= j < SDCCOUNT && 0 <= k < SDCCOUNT && j != k ensures Apart(t[j], t[k]) {
      assert j != i && k != i ==> Apart(slots[j], slots[k]);
    }
  }

  /** Slot `i` has not been touched, and has become older by at most one. */
  ghost predicate Intact(old': seq<Slot>, now: seq<Slot>, i: nat)
    requires i < |old'| && i < |now|
  {
    now[i].buf == old'[i].buf && Used(now[i]) && |Later(now, now[i].last)| <= |Later(old', old'[i].last)| + 1
  }

  /** All used slots that fewer than 15 others have overtaken are intact. */
  ghost predicate OthersIntact(old': seq<Slot>, now: seq<Slot>)
    requires |old'| == |now|
  {
    forall i {:trigger Intact(old', now, i)} ::
      0 <= i < |now| && Used(old'[i]) && |Later(old', old'[i].last)| < SDCCOUNT - 1 ==> Intact(old', now, i)
  }

  lemma SameIntact(slots: seq<Slot>)
    ensures OthersIntact(slots, slots)
  {}

  class Cache {
    /** The volume of an offset, and the fixed contents of the media. */
    const volumeOf: nat -> Option<Volume>
    const media: (nat, nat) -> seq<byte>
    var slots: seq<Slot>
    var clock: int

    ghost predicate Valid()
      reads this
    {
      && SlotsOk(media, clock, slots)
      && (forall v: nat, base: nat {:trigger media(v, base)} :: |media(v, base)| == PBUFSIZE)
      && (forall off: nat {:trigger volumeOf(off)} :: volumeOf(off).Some? ==> volumeOf(off).value.offset <= off)
    }

    constructor (volumeOf: nat -> Option<Volume>, media: (nat, nat) -> seq<byte>, zero: seq<byte>)
      requires |zero| == PBUFSIZE && (forall v: nat, base: nat {:trigger media(v, base)} :: |media(v, base)| == PBUFSIZE)
      requires forall off: nat {:trigger volumeOf(off)} :: volumeOf(off).Some? ==> volumeOf(off).value.offset <= off
      ensures Valid() && this.volumeOf == volumeOf && this.media == media
    {
      this.volumeOf, this.media := volumeOf, media;
      slots := seq(SDCCOUNT, i => Slot(zero, 0, None, 0));
      clock := 0;
    }

    /** The linear lookup: the slot of the block, or else the oldest slot. */
    method Lookup(v: nat, base: nat) returns (hit: bool, i: nat)
      requires Valid()
      ensures i < SDCCOUNT && (hit ==> Used(slots[i]) && slots[i].vol == Some(v) && slots[i].offset == base)
      ensures !hit ==> forall j {:trigger slots[j]} :: 0 <= j < SDCCOUNT ==>
        !(slots[j].vol == Some(v) && slots[j].offset == base) && slots[i].last <= slots[j].last
    {
      var worst: nat := 0;
      var k := 0;
      while k < SDCCOUNT
        invariant 0 <= k <= SDCCOUNT && worst < SDCCOUNT && (worst < k || worst == 0)
        invariant forall j {:trigger slots[j]} :: 0 <= j < k ==>
          !(slots[j].vol == Some(v) && slots[j].offset == base) && slots[worst].last <= slots[j].last
      {
        if slots[k].vol == Some(v) && slots[k].offset == base {
          return true, k;
        }
        if k == 0 || slots[worst].last > slots[k].last {
          worst := k;
        }
        k := k + 1;
      }
      return false, worst;
    }

    /** What a read of `off` must return. */
    ghost function Wanted(off: nat): (w: Option<seq<byte>>)
      requires Valid()
      reads this
    {
      if volumeOf(off).None? then None
      else
        var v := volumeOf(off).value;
        var poff := Poff(off, v);
        if !Fits(poff, Bytes(off)) then None
        else FitsInside(poff, Bytes(off)); Some(media(v.id, Pbase(poff))[poff - Pbase(poff)..poff - Pbase(poff) + Bytes(off)])
    }

    /** The bytes that a view shows. */
    ghost function Shown(v: View, bytes: nat): seq<byte>
      requires Valid() && v.slot < SDCCOUNT && v.start + bytes <= PBUFSIZE
      reads this
    {
      slots[v.slot].buf[v.start..v.start + bytes]
    }

    /** The media's byte at an address of a volume. */
    ghost function MediaByte(v: nat, x: nat): byte
      requires Valid()
      reads this
    {
      media(v, x / 65536 * 65536)[x % 65536]
    }

    /** The read that `off` asks for begins at this address of its volume ... */
    ghost function Address(off: nat): nat
      requires Valid() && volumeOf(off).Some?
      reads this
    {
      (off - volumeOf(off).value.offset) / 32 * 32
    }

    /** ... and is possible if it is aligned to its size and does not cross a 64KB boundary. */
    ghost predicate Possible(off: nat)
      requires Valid()
      reads this
    {
      volumeOf(off).Some? && Address(off) % Pow2(off % 32) == 0 &&
      Address(off) / 65536 == (Address(off) + Pow2(off % 32) - 1) / 65536
    }

    /** The bytes wanted are the media's, from the block's place in its volume on. */
    lemma WantedBytes(off: nat)
      requires Valid()
      ensures Wanted(off).Some? <==> Possible(off)
      ensures Possible(off) ==> |Wanted(off).value| == Pow2(off % 32)
      ensures Possible(off) ==> forall k :: 0 <= k < Pow2(off % 32) ==>
        Wanted(off).value[k] == MediaByte(volumeOf(off).value.id, Address(off) + k)
    {
      hide SlotsOk, Pow2;
      if Possible(off) {
        var v, x, n := volumeOf(off).value.id, Address(off), Pow2(off % 32);
        FitsInside(x, n);
        forall k | 0 <= k < n ensures Wanted(off).value[k] == MediaByte(v, x + k) {
          SamePage(x, k, n);
          assert media(v, Pbase(x))[x - Pbase(x)..x - Pbase(x) + n][k] == media(v, Pbase(x))[x - Pbase(x) + k];
        }
      }
    }

    lemma SamePage(x: nat, k: nat, n: nat)
      requires k < n && x / 65536 == (x + n - 1) / 65536
      ensures (x + k) / 65536 * 65536 == x / 65536 * 65536 && (x + k) % 65536 == x - x / 65536 * 65536 + k
    {}

    /** `hammer2_cache_read`; `ok` says whether an I/O that is needed succeeds, and `junk` is
        what a failed one leaves in the buffer. */
    method Read(off: nat, ok: bool, junk: seq<byte>) returns (r: Option<View>, bytes: nat)
      requires Valid() && |junk| == PBUFSIZE
      modifies this
      ensures Valid() && bytes == (if Wanted(off).None? then 0 else Bytes(off)) && (r == None ==> !ok || bytes == 0)
      ensures r.Some? ==> Wanted(off).Some? && r.value.slot < SDCCOUNT
      ensures r.Some? ==> r.value.start + bytes <= PBUFSIZE && Shown(r.value, bytes) == Wanted(off).value
      ensures bytes == if old(Possible(off)) then Pow2(off % 32) else 0
      ensures r.Some? ==> forall k :: 0 <= k < bytes ==>
        Shown(r.value, bytes)[k] == MediaByte(volumeOf(off).value.id, Address(off) + k)
      ensures r.Some? ==> Used(slots[r.value.slot]) && Later(slots, slots[r.value.slot].last) == {}
      ensures |slots| == |old(slots)| && OthersIntact(old(slots), slots)
    {
      r, bytes := None, 0;
      WantedBytes(off);
      var found := volumeOf(off);
      SameIntact(slots);
      if found.None? {
        return;
      }
      var v := found.value;
      var poff, pbase := Poff(off, v), Pbase(Poff(off, v));
      bytes := Bytes(off);
      if !Fits(poff, bytes) {
        bytes := 0;
        return;
      }
      FitsInside(poff, bytes);
      hide Fits, Poff, Pbase, Pow2, SlotsOk, SlotOk, Apart, Later;
      var i := Access(v.id, pbase, ok, junk);
      r := if i.Some? then Some(View(i.value, poff - pbase)) else None;
    }

    /** Find the block, or read it into the oldest slot. */
    method Access(v: nat, base: nat, ok: bool, junk: seq<byte>) returns (r: Option<nat>)
      requires Valid() && |junk| == PBUFSIZE
      modifies this
      ensures Valid() && (r == None ==> !ok)
      ensures r.Some? ==> r.value < SDCCOUNT && Used(slots[r.value])
      ensures r.Some? ==> slots[r.value].buf == media(v, base) && Later(slots, slots[r.value].last) == {}
      ensures |slots| == |old(slots)| && OthersIntact(old(slots), slots)
    {
      hide Later;
      var hit, i := Lookup(v, base);
      assert SlotOk(media, clock, slots[i]);
      if hit {
        assert forall j {:trigger slots[j]} :: 0 <= j < SDCCOUNT && j != i ==> Apart(slots[i], slots[j]);
        Update(i, slots[i].(last := clock + 1), true);
        r := Some(i);
      } else if ok {
        Update(i, Slot(media(v, base), base, Some(v), clock + 1), false);
        r := Some(i);
      } else {
        Update(i, Slot(junk, -1, Some(v), 0), false);
        r := None;
      }
    }

    /** One slot changes: the one that was found, or the oldest one. */
    method Update(i: nat, s: Slot, hit: bool)
      requires Valid() && i < SDCCOUNT && SlotOk(media, clock + 1, s) && (s.last == clock + 1 || s.last == 0)
      requires forall j {:trigger slots[j]} :: 0 <= j < SDCCOUNT && j != i && Used(s) && Used(slots[j]) ==>
        s.vol != slots[j].vol || s.offset != slots[j].offset
      requires if hit then s.buf == slots[i].buf && Used(s) && s.last == clock + 1
        else forall j {:trigger slots[j]} :: 0 <= j < SDCCOUNT ==> slots[i].last <= slots[j].last
      modifies this
      ensures Valid() && slots == old(slots)[i := s] && clock == old(clock) + 1
      ensures s.last == clock ==> Later(slots, s.last) == {}
      ensures OthersIntact(old(slots), slots)
    {
      ReplaceOk(media, clock, slots, i, s);
      if !hit && slots[i].last > 0 {
        OldestAge(media, clock, slots, i);
      }
      slots := slots[i := s];
      clock := clock + 1;
      forall j: nat | j < SDCCOUNT ensures slots[j].last <= clock {
        assert SlotOk(media, clock, slots[j]);
      }
      if s.last == clock {
        assert Later(slots, s.last) == {};
      }
      forall k | 0 <= k < SDCCOUNT && Used(old(slots)[k]) &&
        |Later(old(slots), old(slots)[k].last)| < SDCCOUNT - 1
        ensures Intact(old(slots), slots, k)
      {
        AgeByOne(old(slots), i, s, old(slots)[k].last);
        assert SlotOk(media, old(clock), old(slots)[k]);
      }
    }

    /** A buffer that was returned stays as it is through the next 15 calls, whatever they are. */
    method Reads(i: nat, requests: seq<(nat, bool, seq<byte>)>)
      requires Valid() && i < SDCCOUNT && Used(slots[i]) && Later(slots, slots[i].last) == {} && |requests| < SDCCOUNT
      requires forall k {:trigger requests[k]} :: 0 <= k < |requests| ==> |requests[k].2| == PBUFSIZE
      modifies this
      ensures Valid() && slots[i].buf == old(slots)[i].buf
    {
      hide Later;
      var k := 0;
      while k < |requests|
        invariant 0 <= k <= |requests| && Valid() && Used(slots[i])
        invariant slots[i].buf == old(slots)[i].buf && |Later(slots, slots[i].last)| <= k
      {
        ghost var before := slots;
        var r, n := Read(requests[k].0, requests[k].1, requests[k].2);
        assert Intact(before, slots, i);
        k := k + 1;
      }
    }
  }
}
