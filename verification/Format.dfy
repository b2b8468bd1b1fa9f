/** Writing a new filesystem: what goes to each device, and that it is found again when the
    devices are opened in any order. */
module Format {
  import opened Basics
  import opened Volumes
  import opened Ondisk
  import opened Newfs

  const NEW_TID := 16

  /** The offsets that every header records. */
  function Loffs(t: Table): seq<nat>
    requires |t.volumes| == MAX_VOLUMES
  {
    seq(MAX_VOLUMES, k requires 0 <= k < MAX_VOLUMES =>
      if t.version < MULTI_VOLUMES then 0 else if k < t.nvolumes && t.volumes[k].Present? then t.volumes[k].offset else NOWHERE)
  }

  /** The header of volume i. */
  function HeaderFor(t: Table, i: nat, a: Areas): (h: Header)
    requires |t.volumes| == MAX_VOLUMES && i < MAX_VOLUMES && t.volumes[i].Present? && t.version >= 0 && t.nvolumes <= MAX_VOLUMES
    ensures HeaderShape(h)
  {
    var areas := if i == 0 then a else Areas(0, 0, 0, 0, a.allocSize, 0, 0, 0);
    if t.version >= MULTI_VOLUMES then
      Header(t.version, i, t.nvolumes, t.total, Loffs(t), t.volumes[i].size, t.fsid, FSTYPE, NEW_TID, areas)
    else
      Header(t.version, 0, 0, 0, Loffs(t), t.volumes[i].size, t.fsid, FSTYPE, NEW_TID, areas)
  }

  /** A write that stays below `size` leaves a block above it alone. */
  ghost predicate SameAbove(was: map<nat, Block>, now: map<nat, Block>, size: nat) {
    forall off: nat {:trigger off in now} {:trigger off in was} :: off + PBUF > size ==>
      (off in was <==> off in now) && (off in was ==> was[off] == now[off])
  }

  /** Clear the blocks from `from` up to `upto`. */
  method Clear(dev: Device, from: nat, upto: nat, ghost size: nat)
    requires upto % PBUF == 0 && from % PBUF == 0 && upto <= size
    modifies dev
    ensures SameAbove(old(dev.blocks), dev.blocks, size)
    ensures forall off: nat {:trigger off in dev.blocks} :: off < from || off >= upto ==>
      (off in dev.blocks <==> off in old(dev.blocks)) && (off in dev.blocks ==> dev.blocks[off] == old(dev.blocks)[off])
  {
    var base := from;
    while base < upto
      invariant base >= from && base % PBUF == 0
      invariant SameAbove(old(dev.blocks), dev.blocks, size)
      invariant forall off: nat {:trigger off in dev.blocks} :: off < from || off >= upto ==>
        (off in dev.blocks <==> off in old(dev.blocks)) && (off in dev.blocks ==> dev.blocks[off] == old(dev.blocks)[off])
    {
      dev.blocks := dev.blocks[base := Zero];
      base := base + PBUF;
    }
  }

  /** The inodes of a new filesystem: one piece for the super-root, then one for each label. */
  ghost predicate InodesAt(refs: seq<nat>, labels: nat, base: nat) {
    |refs| == labels && forall k {:trigger refs[k]} :: 0 <= k < labels ==> refs[k] == base + (k + 1) * INODE_BYTES + RADIX_MIN
  }

  /** `format_hammer2_inode`. */
  method FormatInodes(dev: Device, labels: nat, base: nat, ghost size: nat) returns (sroot: nat, next: nat)
    requires labels <= MAXLABELS && base % PBUF == 0 && base + PBUF <= size
    modifies dev
    ensures sroot == base + RADIX_MIN && next == base + (labels + 1) * INODE_BYTES
    ensures base in dev.blocks && dev.blocks[base].Inodes? && InodesAt(dev.blocks[base].refs, labels, base)
    ensures dev.blocks == old(dev.blocks)[base := dev.blocks[base]]
  {
    assert Pow2(10) == 1024;
    sroot, next := AllocDirect(base, INODE_BYTES, 10);
    var refs := [];
    var i := 0;
    while i < labels
      invariant 0 <= i <= labels && next == base + (i + 1) * INODE_BYTES && InodesAt(refs, i, base)
      invariant dev.blocks == old(dev.blocks)
    {
      assert next % 64 == 0;
      var off, after := AllocDirect(next, INODE_BYTES, 10);
      refs, next := refs + [off], after;
      i := i + 1;
    }
    dev.blocks := dev.blocks[base := Inodes(refs)];
    assert dev.blocks[base] == Inodes(refs);
  }

  /** Where allocation starts on the root volume. */
  function AllocBase(boot: nat, aux: nat): nat { ZONE_SEG + boot + aux }

  function AreasOf(boot: nat, aux: nat, free: nat, labels: nat): Areas {
    var base := AllocBase(boot, aux);
    Areas(ZONE_SEG, ZONE_SEG + boot, ZONE_SEG + boot, base, free, free, base + (labels + 1) * INODE_BYTES, base + RADIX_MIN)
  }

  /** What `format_hammer2` needs of the areas: they are aligned, and if the check on the start
      of the allocation passes there is room behind it on the root volume. */
  predicate RootRoom(boot: nat, aux: nat, size: nat) {
    && boot % ALIGN == 0 && aux % ALIGN == 0 && boot >= ALIGN && aux >= ALIGN
    && (AllocBase(boot, aux) < LEVEL1 ==> AllocBase(boot, aux) + PBUF <= size)
  }

  /** There always is: enough free space was left. */
  lemma RoomForRoot(boot: nat, aux: nat, size: nat, total: nat)
    requires boot % ALIGN == 0 && aux % ALIGN == 0 && boot >= ALIGN && aux >= ALIGN
    requires size % ALIGN == 0 && total % ALIGN == 0 && (size == total || size >= LEVEL1)
    requires Reserved(total) + boot + aux <= total
    ensures RootRoom(boot, aux, size)
  {}

  /** 4MB for every 1GB or part of it. */
  function Reserved(total: nat): nat { (total + LEVEL1 - 1) / LEVEL1 * ZONE_SEG }

  /** A header copy in every zone that begins on the volume, and the zones above it unchanged. */
  ghost predicate Written(dev: Device, h: Header, size: nat, before: seq<Option<Header>>)
    requires |before| == NUM_VOLHDRS
    reads dev
  {
    forall k: nat {:trigger dev.Copy(k)} :: k < NUM_VOLHDRS ==> dev.Copy(k) == if k * ZONE < size then Some(h) else before[k]
  }

  /** The block with the super-root inode and the root inodes. */
  ghost predicate RootBlock(dev: Device, base: nat, labels: nat)
    reads dev
  {
    base in dev.blocks && dev.blocks[base].Inodes? && InodesAt(dev.blocks[base].refs, labels, base)
  }

  /** The part of `format_hammer2` for the root volume: false if the areas are too large. */
  method FormatRoot(dev: Device, boot: nat, aux: nat, free: nat, labels: nat, ghost size: nat) returns (ok: bool, areas: Areas)
    requires RootRoom(boot, aux, size) && size >= ALIGN && labels <= MAXLABELS
    modifies dev
    ensures SameAbove(old(dev.blocks), dev.blocks, size)
    ensures ok == (AllocBase(boot, aux) < LEVEL1)
    ensures ok ==> areas == AreasOf(boot, aux, free, labels) && RootBlock(dev, AllocBase(boot, aux), labels)
  {
    var bootBase := ZONE_SEG;
    var auxBase := bootBase + boot;
    var base := auxBase + aux;
    areas := Areas(bootBase, auxBase, auxBase, base, free, free, 0, 0);
    Clear(dev, 0, ZONE_SEG, size);
    if base >= LEVEL1 {
      return false, areas;
    }
    Clear(dev, bootBase, base, size);
    var sroot, next := FormatInodes(dev, labels, base, size);
    return true, areas.(allocBeg := next, sroot := sroot);
  }

  lemma Fits(i: nat, size: nat)
    requires i * ZONE < size && size % ALIGN == 0
    ensures i * ZONE + PBUF <= size
  {}

  /** The header goes to every zone that begins on the volume. */
  method WriteHeaders(dev: Device, h: Header, size: nat)
    requires HeaderShape(h) && 0 < size <= dev.size && size % ALIGN == 0
    modifies dev
    ensures SameAbove(old(dev.blocks), dev.blocks, size) && Written(dev, h, size, old(dev.Copies(NUM_VOLHDRS)))
    ensures forall off: nat {:trigger off in dev.blocks} :: off % ZONE != 0 ==>
      (off in dev.blocks <==> off in old(dev.blocks)) && (off in dev.blocks ==> dev.blocks[off] == old(dev.blocks)[off])
  {
    var i: nat := 0;
    while i < NUM_VOLHDRS && i * ZONE < size
      invariant i <= NUM_VOLHDRS && SameAbove(old(dev.blocks), dev.blocks, size)
      invariant forall k: nat {:trigger dev.Copy(k)} :: k < NUM_VOLHDRS ==> dev.Copy(k) == if k < i then Some(h) else old(dev.Copy(k))
      invariant forall k: nat :: k < i ==> k * ZONE < size
      invariant forall off: nat {:trigger off in dev.blocks} :: off % ZONE != 0 ==>
        (off in dev.blocks <==> off in old(dev.blocks)) && (off in dev.blocks ==> dev.blocks[off] == old(dev.blocks)[off])
    {
      Fits(i, size);
      label before:
      dev.blocks := dev.blocks[i * ZONE := Head(h)];
      forall k: nat | k < NUM_VOLHDRS
        ensures dev.Copy(k) == if k == i then Some(h) else old@before(dev.Copy(k))
      {
        if k != i { assert k * ZONE != i * ZONE; }
      }
      i := i + 1;
    }
  }

  /** The last block of the volume is not above it. */
  lemma ClearsLast(was: map<nat, Block>, size: nat)
    requires size > 0 && size % ALIGN == 0
    ensures size >= PBUF && SameAbove(was, was[size - PBUF := Zero], size)
  {}

  lemma SameTransitive(a: map<nat, Block>, b: map<nat, Block>, c: map<nat, Block>, size: nat)
    ensures SameAbove(a, b, size) && SameAbove(b, c, size) ==> SameAbove(a, c, size)
  {}

  lemma CopiesAbove(was: map<nat, Block>, now: map<nat, Block>, devSize: nat, size: nat)
    requires SameAbove(was, now, size)
    ensures forall k: nat {:trigger HeaderAt(now, devSize, k * ZONE)} :: k * ZONE >= size ==>
      HeaderAt(now, devSize, k * ZONE) == HeaderAt(was, devSize, k * ZONE)
  {}

  method MakeLoffs(t: Table) returns (loff: seq<nat>)
    requires |t.volumes| == MAX_VOLUMES && t.nvolumes <= MAX_VOLUMES
    ensures loff == Loffs(t)
  {
    loff := [];
    var i := 0;
    while i < MAX_VOLUMES
      invariant 0 <= i <= MAX_VOLUMES && loff == Loffs(t)[..i]
    {
      if t.version < MULTI_VOLUMES {
        loff := loff + [0];
      } else if i < t.nvolumes && t.volumes[i].Present? {
        loff := loff + [t.volumes[i].offset];
      } else {
        loff := loff + [NOWHERE];
      }
      i := i + 1;
    }
  }

  /** `format_hammer2` for volume i of the table. */
  method FormatVolume(t: Table, i: nat, dev: Device, size: nat, boot: nat, aux: nat, free: nat, labels: nat) returns (ok: bool)
    requires |t.volumes| == MAX_VOLUMES && i < t.nvolumes <= MAX_VOLUMES && t.version >= 0
    requires t.volumes[i].Present? && t.volumes[i].dev == dev && t.volumes[i].size == size
    requires 0 < size <= dev.size && size % ALIGN == 0 && labels <= MAXLABELS
    requires i == 0 ==> RootRoom(boot, aux, size)
    modifies dev
    ensures SameAbove(old(dev.blocks), dev.blocks, size)
    ensures ok == (i == 0 ==> AllocBase(boot, aux) < LEVEL1)
    ensures ok ==> Written(dev, HeaderFor(t, i, AreasOf(boot, aux, free, labels)), size, old(dev.Copies(NUM_VOLHDRS)))
    ensures ok && i == 0 ==> RootBlock(dev, AllocBase(boot, aux), labels)
  {
    hide Loffs, RootRoom, AreasOf, SameAbove;
    ghost var was := dev.blocks;
    ClearsLast(was, size);
    dev.blocks := dev.blocks[size - PBUF := Zero];
    ghost var cleared := dev.blocks;
    var areas := Areas(0, 0, 0, 0, free, 0, 0, 0);
    if i == 0 {
      ok, areas := FormatRoot(dev, boot, aux, free, labels, size);
      SameTransitive(was, cleared, dev.blocks, size);
      if !ok {
        return false;
      }
    }
    SameSize(boot, aux, free, labels);
    var loff := MakeLoffs(t);
    var h := if t.version >= MULTI_VOLUMES then
      Header(t.version, i, t.nvolumes, t.total, loff, size, t.fsid, FSTYPE, NEW_TID, areas)
    else
      Header(t.version, 0, 0, 0, loff, size, t.fsid, FSTYPE, NEW_TID, areas);
    assert h == HeaderFor(t, i, AreasOf(boot, aux, free, labels));
    CopiesAbove(was, dev.blocks, dev.size, size);
    ghost var laid := dev.blocks;
    WriteHeaders(dev, h, size);
    SameTransitive(was, laid, dev.blocks, size);
    if i == 0 {
      OffZones(AllocBase(boot, aux));
      assert AllocBase(boot, aux) in dev.blocks && dev.blocks[AllocBase(boot, aux)] == laid[AllocBase(boot, aux)];
    }
    return true;
  }

  /** No header goes where the inodes are. */
  lemma OffZones(base: nat)
    requires ZONE_SEG <= base < LEVEL1
    ensures base % ZONE != 0
  {}

  lemma SameSize(boot: nat, aux: nat, free: nat, labels: nat)
    ensures AreasOf(boot, aux, free, labels).allocSize == free
  {}
}
