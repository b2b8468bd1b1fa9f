/** The block graph of a HAMMER2 volume as the offline tools see it: blocks, the
    blockrefs inside them, and the check codes that tie a blockref to its block.

    A block is identified by the `data_off` of the blockrefs that name it (offset
    and size radix together).  Hash functions are parameters: nothing here depends
    on what they compute. */
module Media {
  import opened Basics

  const HAMMER2_SET_COUNT := 4
  const HAMMER2_NUM_VOLHDRS := 4
  const HAMMER2_PBUFRADIX := 16
  const HAMMER2_VOLUME_ID_HBO := 0x48414d3205172011
  const HAMMER2_VOLUME_ID_ABO := 0x11201705324d4148

  const HAMMER2_CHECK_ISCSI32 := 2
  const HAMMER2_CHECK_XXHASH64 := 3
  const HAMMER2_CHECK_SHA192 := 4
  const HAMMER2_CHECK_FREEMAP := 5

  datatype BrefType =
    | Empty | Inode | Indirect | Data | Dirent | FreemapNode | FreemapLeaf
    | Freemap | Volume | Invalid(code: byte)

  /** The 64 byte check union.  `lo` is the 32 bit word used by ISCSI32 and FREEMAP,
      `lo` and `hi` make the XXHASH64 value, and `lo`, `hi`, `mid` the SHA192 data. */
  datatype Check = Check(lo: u32, hi: u32, mid: seq<byte>, tail: seq<byte>)

  datatype Bref = Bref(btype: BrefType, methods: byte, dataOff: nat, check: Check, rest: seq<byte>)

  datatype Header = Header(
    magic: nat, sector0: seq<byte>, icrcSect1: u32, icrcSect0: u32,
    sroot: seq<Bref>, freemap: seq<Bref>, other: seq<byte>, icrcVolheader: u32)

  datatype Block =
    | InodeBlock(directData: bool, blockset: seq<Bref>, meta: seq<byte>)
    | IndirectBlock(npdata: seq<Bref>)
    | HeaderBlock(head: Header)
    | LeafBlock(buf: seq<byte>)

  type Disk = map<nat, Block>

  /** Uninterpreted hash functions.  A volume header CRC never covers its own field. */
  datatype Hashes = Hashes(
    icrc32: Block -> u32,
    xxh64: Block -> (u32, u32),
    sha192: Block -> (u32, u32, seq<byte>),
    crcSect1: seq<Bref> -> u32,
    crcSect0: (nat, seq<byte>, u32) -> u32,
    crcVolheader: Header -> u32)

  function Radix(dataOff: nat): nat { dataOff % 64 }

  /** Size of the block a blockref names; a radix of zero names no block. */
  function MediaBytes(dataOff: nat): nat {
    if Radix(dataOff) == 0 then 0 else Pow2(Radix(dataOff))
  }

  function DecCheck(methods: byte): nat { (methods / 16) % 16 }

  /** The comparison both tools make between a blockref's check field and its block. */
  predicate CheckOk(hs: Hashes, methods: byte, check: Check, block: Block) {
    var m := DecCheck(methods);
    if m == HAMMER2_CHECK_ISCSI32 || m == HAMMER2_CHECK_FREEMAP then check.lo == hs.icrc32(block)
    else if m == HAMMER2_CHECK_XXHASH64 then (check.lo, check.hi) == hs.xxh64(block)
    else if m == HAMMER2_CHECK_SHA192 then (check.lo, check.hi, check.mid) == hs.sha192(block)
    else true
  }

  /** A check field passes only blocks that hash alike: all 32, 64 or 192 bits of it count. */
  lemma CheckTells(hs: Hashes, methods: byte, check: Check, a: Block, b: Block)
    requires CheckOk(hs, methods, check, a) && CheckOk(hs, methods, check, b)
    ensures DecCheck(methods) in {HAMMER2_CHECK_ISCSI32, HAMMER2_CHECK_FREEMAP} ==> hs.icrc32(a) == hs.icrc32(b)
    ensures DecCheck(methods) == HAMMER2_CHECK_XXHASH64 ==> hs.xxh64(a) == hs.xxh64(b)
    ensures DecCheck(methods) == HAMMER2_CHECK_SHA192 ==> hs.sha192(a) == hs.sha192(b)
  {}

  /** A blockref as seen from its parent: which block, and how to read it. */
  datatype Node = Node(btype: BrefType, off: nat)

  function NodeOf(b: Bref): Node { Node(b.btype, b.dataOff) }

  /** Where zone `z` starts: HAMMER2_ZONE_BYTES64 is 2 GB. */
  function ZoneOff(z: nat): nat { z * 0x8000_0000 }

  function ZoneNode(t: BrefType, zone: nat): Node {
    Node(t, ZoneOff(zone) + HAMMER2_PBUFRADIX)
  }

  /** The array of blockrefs the walkers scan in a block read as type `t`. */
  function Scan(t: BrefType, block: Block): seq<Bref> {
    match (t, block)
    case (Inode, InodeBlock(direct, blockset, _)) => if direct then [] else blockset
    case (Indirect, IndirectBlock(np)) => np
    case (FreemapNode, IndirectBlock(np)) => np
    case (Volume, HeaderBlock(h)) => h.sroot
    case (Freemap, HeaderBlock(h)) => h.freemap
    case _ => []
  }

  /** The block with the check field of scan entry `i` replaced. */
  function PutCheck(t: BrefType, block: Block, i: nat, c: Check): Block
    requires i < |Scan(t, block)|
  {
    var e := Scan(t, block)[i].(check := c);
    match (t, block)
    case (Inode, InodeBlock(_, blockset, _)) => block.(blockset := blockset[i := e])
    case (Indirect, IndirectBlock(np)) => IndirectBlock(np[i := e])
    case (FreemapNode, IndirectBlock(np)) => IndirectBlock(np[i := e])
    case (Volume, HeaderBlock(h)) => HeaderBlock(h.(sroot := h.sroot[i := e]))
    case (Freemap, HeaderBlock(h)) => HeaderBlock(h.(freemap := h.freemap[i := e]))
  }

  predicate IsHeaderType(t: BrefType) { t == Volume || t == Freemap }

  /** A block of the kind a blockref of type `t` must name. */
  predicate KindOk(t: BrefType, block: Block) {
    match t
    case Inode => block.InodeBlock? && (block.directData || |block.blockset| == HAMMER2_SET_COUNT)
    case Indirect => block.IndirectBlock?
    case FreemapNode => block.IndirectBlock?
    case Volume => block.HeaderBlock? && |block.head.sroot| == HAMMER2_SET_COUNT
    case Freemap => block.HeaderBlock? && |block.head.freemap| == HAMMER2_SET_COUNT
    case Data => block.LeafBlock?
    case Dirent => block.LeafBlock?
    case FreemapLeaf => block.LeafBlock?
    case _ => false
  }

  /** A well-formed acyclic block graph: `nodes` is closed under the blockrefs that
      name blocks, and `rank` strictly decreases from a block to what it references. */
  datatype Graph = Graph(nodes: set<Node>, rank: Node -> nat)

  predicate Follows(b: Bref) { b.btype != Empty && Radix(b.dataOff) != 0 }

  ghost predicate EntryOk(g: Graph, n: Node, b: Bref) {
    && (b.btype == Empty ==> b.dataOff == 0)
    && (Radix(b.dataOff) == 0 ==> b.dataOff == 0)
    && !b.btype.Invalid? && !IsHeaderType(b.btype)
    && (Follows(b) ==> NodeOf(b) in g.nodes && g.rank(NodeOf(b)) < g.rank(n))
  }

  ghost predicate NodeOk(disk: Disk, g: Graph, n: Node) {
    && Radix(n.off) != 0
    && n.off in disk
    && KindOk(n.btype, disk[n.off])
    && (forall i {:trigger EntryOk(g, n, Scan(n.btype, disk[n.off])[i])} ::
          0 <= i < |Scan(n.btype, disk[n.off])| ==> EntryOk(g, n, Scan(n.btype, disk[n.off])[i]))
  }

  predicate Aliased(m: Node, n: Node) { m.off == n.off && m.btype != n.btype }

  /** A block is read as one type only, except that a header serves both of its trees. */
  ghost predicate WellFormed(disk: Disk, g: Graph) {
    && (forall n {:trigger NodeOk(disk, g, n)} :: n in g.nodes ==> NodeOk(disk, g, n))
    && (forall m, n {:trigger Aliased(m, n)} :: m in g.nodes && n in g.nodes && Aliased(m, n) ==> IsHeaderType(m.btype))
  }

  function Entries(disk: Disk, n: Node): seq<Bref> {
    if n.off in disk then Scan(n.btype, disk[n.off]) else []
  }

  lemma NodeIn(disk: Disk, g: Graph, n: Node)
    requires WellFormed(disk, g) && n in g.nodes
    ensures n.off in disk && KindOk(n.btype, disk[n.off])
  {
    assert NodeOk(disk, g, n);
  }

  lemma EntryIn(disk: Disk, g: Graph, n: Node, i: nat)
    requires WellFormed(disk, g) && n in g.nodes && i < |Entries(disk, n)|
    ensures EntryOk(g, n, Entries(disk, n)[i])
  {
    assert NodeOk(disk, g, n);
  }

  /** Only check codes differ. */
  predicate SameBref(a: Bref, b: Bref) { a == b.(check := a.check) }

  ghost predicate SameBrefs(a: seq<Bref>, b: seq<Bref>) {
    |a| == |b| && forall i :: 0 <= i < |a| ==> SameBref(a[i], b[i])
  }

  ghost predicate SameBlock(a: Block, b: Block) {
    match (a, b)
    case (InodeBlock(_, sa, _), InodeBlock(_, sb, _)) =>
      a == b.(blockset := sa) && SameBrefs(sa, sb) && (a.directData ==> sa == sb)
    case (IndirectBlock(na), IndirectBlock(nb)) => SameBrefs(na, nb)
    case (HeaderBlock(ha), HeaderBlock(hb)) =>
      && ha == hb.(sroot := ha.sroot, freemap := ha.freemap, icrcSect1 := ha.icrcSect1,
                   icrcSect0 := ha.icrcSect0, icrcVolheader := ha.icrcVolheader)
      && SameBrefs(ha.sroot, hb.sroot) && SameBrefs(ha.freemap, hb.freemap)
    case (LeafBlock(_), LeafBlock(_)) => a == b
    case _ => false
  }

  /** The second disk is the first with nothing but check codes and CRCs changed. */
  ghost predicate SameButChecks(a: Disk, b: Disk) {
    a.Keys == b.Keys && forall d {:trigger SameBlock(a[d], b[d])} :: d in a ==> SameBlock(a[d], b[d])
  }

  lemma SameButChecksReflexive(a: Disk)
    ensures SameButChecks(a, a)
  {
    forall d | d in a ensures SameBlock(a[d], a[d]) {}
  }

  lemma SameButChecksTransitive(a: Disk, b: Disk, c: Disk)
    requires SameButChecks(a, b) && SameButChecks(b, c)
    ensures SameButChecks(a, c)
  {
    forall d | d in a ensures SameBlock(a[d], c[d]) {
      assert SameBlock(a[d], b[d]) && SameBlock(b[d], c[d]);
    }
  }

  lemma WellFormedStable(a: Disk, b: Disk, g: Graph)
    requires WellFormed(a, g) && SameButChecks(a, b)
    ensures WellFormed(b, g)
  {
    forall n | n in g.nodes ensures NodeOk(b, g, n) {
      assert NodeOk(a, g, n) && SameBlock(a[n.off], b[n.off]);
      var sa, sb := Scan(n.btype, a[n.off]), Scan(n.btype, b[n.off]);
      assert SameBrefs(sa, sb);
      forall i | 0 <= i < |sb| ensures EntryOk(g, n, sb[i]) {
        assert EntryOk(g, n, sa[i]) && SameBref(sa[i], sb[i]);
      }
    }
  }

  /** A block whose scanned entries did not change did not change at all, unless it is a header. */
  lemma SameEntriesSameBlock(a: Disk, b: Disk, g: Graph, n: Node)
    requires WellFormed(a, g) && SameButChecks(a, b) && n in g.nodes && !IsHeaderType(n.btype)
    requires Entries(a, n) == Entries(b, n)
    ensures n.off in a && n.off in b && a[n.off] == b[n.off]
  {
    assert NodeOk(a, g, n) && SameBlock(a[n.off], b[n.off]);
  }

  const NoCheck := Check(0, 0, [], [])

  /** The blockref the tools make up for the header of a zone: no check method. */
  function RootBref(t: BrefType, zone: nat): Bref {
    Bref(t, 0, ZoneNode(t, zone).off, NoCheck, [])
  }

  /** Zone `z` begins on a root volume of this size. */
  predicate Begins(size: nat, z: nat) { z < HAMMER2_NUM_VOLHDRS && ZoneOff(z) < size }

  /** All four do. */
  predicate AllBegin(size: nat) { Begins(size, HAMMER2_NUM_VOLHDRS - 1) }

  lemma AllBeginAll(size: nat)
    ensures AllBegin(size) <==> forall z: nat {:trigger Begins(size, z)} :: z < HAMMER2_NUM_VOLHDRS ==> Begins(size, z)
    ensures AllBegin(size) <==> size > 0x1_8000_0000
  {
    assert AllBegin(size) <==> Begins(size, 3);
  }

  ghost predicate ZonesIn(g: Graph, size: nat) {
    forall z: nat :: Begins(size, z) ==> ZoneNode(Volume, z) in g.nodes && ZoneNode(Freemap, z) in g.nodes
  }

  predicate MagicOk(h: Header) {
    h.magic == HAMMER2_VOLUME_ID_HBO || h.magic == HAMMER2_VOLUME_ID_ABO
  }

  predicate HeaderOk(hs: Hashes, h: Header) {
    && h.icrcSect1 == hs.crcSect1(h.sroot)
    && h.icrcSect0 == hs.crcSect0(h.magic, h.sector0, h.icrcSect1)
    && h.icrcVolheader == hs.crcVolheader(h.(icrcVolheader := 0))
  }
}
