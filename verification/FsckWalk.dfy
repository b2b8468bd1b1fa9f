/** What `fsck` means by a good block graph: the plain recursive walk, without a cache. */
module FsckWalk {
  import opened Media

  /** Subtree statistics (`delta_stats_t`). */
  datatype Delta = Delta(
    blockref: nat, empty: nat, bytes: nat,
    inode: nat, indirect: nat, data: nat, dirent: nat,
    node: nat, leaf: nat, count: nat)

  const ZeroDelta := Delta(0, 0, 0, 0, 0, 0, 0, 0, 0, 0)

  function Add(a: Delta, b: Delta): Delta {
    Delta(a.blockref + b.blockref, a.empty + b.empty, a.bytes + b.bytes,
          a.inode + b.inode, a.indirect + b.indirect, a.data + b.data, a.dirent + b.dirent,
          a.node + b.node, a.leaf + b.leaf, a.count + b.count)
  }

  datatype Options = Options(countEmpty: bool, force: bool, cacheCount: int)

  /** What a verification run looks at: fixed media, some blocks of which cannot be read, on a root
      volume of some size. */
  datatype World = World(hs: Hashes, disk: Disk, size: nat, unreadable: set<nat>, opts: Options, ghost g: Graph) {
    ghost predicate Valid() { WellFormed(disk, g) }

    ghost predicate Has(b: Bref) {
      && (b.btype == Empty ==> b.dataOff == 0)
      && (Radix(b.dataOff) == 0 ==> b.dataOff == 0)
      && (Radix(b.dataOff) != 0 ==> NodeOf(b) in g.nodes)
    }
  }

  /** Statistics a blockref contributes by itself. */
  function Own(opts: Options, b: Bref): Delta {
    var size := MediaBytes(b.dataOff);
    match b.btype
    case Empty => if opts.countEmpty then ZeroDelta.(blockref := 1, empty := 1, bytes := size, count := 1)
                  else ZeroDelta.(count := 1)
    case Inode => ZeroDelta.(blockref := 1, inode := 1, bytes := size, count := 1)
    case Indirect => ZeroDelta.(blockref := 1, indirect := 1, bytes := size, count := 1)
    case Data => ZeroDelta.(blockref := 1, data := 1, bytes := size, count := 1)
    case Dirent => ZeroDelta.(blockref := 1, dirent := 1, bytes := size, count := 1)
    case FreemapNode => ZeroDelta.(blockref := 1, node := 1, bytes := size, count := 1)
    case FreemapLeaf => ZeroDelta.(blockref := 1, leaf := 1, bytes := size, count := 1)
    case Invalid(_) => ZeroDelta.(blockref := 1, bytes := size, count := 1)
    case Freemap => ZeroDelta.(count := 1)
    case Volume => ZeroDelta.(count := 1)
  }

  /** Verdict and, when it is good, the statistics of the subtree. */
  datatype Walked = Bad | Good(delta: Delta)

  /** The uncached walk.  With `norecurse`, only the block itself is checked. */
  ghost function Walk(w: World, b: Bref, norecurse: bool): Walked
    requires w.Valid() && w.Has(b)
    decreases if Radix(b.dataOff) == 0 then 0 else w.g.rank(NodeOf(b)) + 1, 1
  {
    if b.btype.Invalid? then Bad
    else if Radix(b.dataOff) == 0 then Good(Own(w.opts, b))
    else
      assert NodeOk(w.disk, w.g, NodeOf(b));
      if b.dataOff in w.unreadable || !CheckOk(w.hs, b.methods, b.check, w.disk[b.dataOff]) then Bad
      else if norecurse && !w.opts.force then Good(Own(w.opts, b))
      else
        match WalkFirst(w, NodeOf(b), |Entries(w.disk, NodeOf(b))|)
        case Bad => Bad
        case Good(d) => Good(Add(Own(w.opts, b), d))
  }

  /** The first `k` blockrefs of a block, all walked in full. */
  ghost function WalkFirst(w: World, n: Node, k: nat): Walked
    requires w.Valid() && n in w.g.nodes && k <= |Entries(w.disk, n)|
    decreases w.g.rank(n) + 1, 0, k
  {
    if k == 0 then Good(ZeroDelta)
    else
      assert NodeOk(w.disk, w.g, n) && EntryOk(w.g, n, Entries(w.disk, n)[k - 1]);
      match (WalkFirst(w, n, k - 1), Walk(w, Entries(w.disk, n)[k - 1], false))
      case (Good(d), Good(e)) => Good(Add(d, e))
      case _ => Bad
  }

  lemma BlockHas(w: World, b: Bref)
    requires w.Valid() && w.Has(b) && Radix(b.dataOff) != 0
    ensures b.dataOff in w.disk && b.btype != Empty && !b.btype.Invalid?
  {
    assert NodeOk(w.disk, w.g, NodeOf(b));
  }

  /** The walk of a single block, with its children taken together. */
  lemma WalkOne(w: World, b: Bref, norecurse: bool)
    requires w.Valid() && w.Has(b)
    ensures Own(w.opts, b).count == 1
    ensures b.btype.Invalid? ==> Walk(w, b, norecurse).Bad?
    ensures Radix(b.dataOff) == 0 && !b.btype.Invalid? ==> Walk(w, b, norecurse) == Good(Own(w.opts, b))
    ensures Radix(b.dataOff) != 0 ==> b.dataOff in w.disk && NodeOf(b) in w.g.nodes
    ensures Radix(b.dataOff) != 0 ==>
      if b.dataOff in w.unreadable || !CheckOk(w.hs, b.methods, b.check, w.disk[b.dataOff]) then Walk(w, b, norecurse).Bad?
      else if norecurse && !w.opts.force then Walk(w, b, norecurse) == Good(Own(w.opts, b))
      else
        var rest := WalkFirst(w, NodeOf(b), |Entries(w.disk, NodeOf(b))|);
        Walk(w, b, norecurse) == if rest.Bad? then Bad else Good(Add(Own(w.opts, b), rest.delta))
  {
    if Radix(b.dataOff) != 0 {
      assert NodeOk(w.disk, w.g, NodeOf(b));
    }
  }

  lemma ChildHas(w: World, n: Node, i: nat)
    requires w.Valid() && n in w.g.nodes && i < |Entries(w.disk, n)|
    ensures w.Has(Entries(w.disk, n)[i])
    ensures Radix(Entries(w.disk, n)[i].dataOff) != 0 ==> w.g.rank(NodeOf(Entries(w.disk, n)[i])) < w.g.rank(n)
  {
    assert NodeOk(w.disk, w.g, n) && EntryOk(w.g, n, Entries(w.disk, n)[i]);
  }

  /** A bad entry spoils the block that holds it. */
  lemma {:induction false} WalkFirstBad(w: World, n: Node, i: nat, k: nat)
    requires w.Valid() && n in w.g.nodes && i < k <= |Entries(w.disk, n)|
    requires WalkFirst(w, n, i + 1).Bad?
    ensures WalkFirst(w, n, k).Bad?
    decreases k
  {
    if i + 1 < k {
      WalkFirstBad(w, n, i, k - 1);
    }
  }

  lemma FirstNext(w: World, n: Node, k: nat, b: Bref)
    requires w.Valid() && n in w.g.nodes && k < |Entries(w.disk, n)| && w.Has(b) && b == Entries(w.disk, n)[k]
    ensures WalkFirst(w, n, k + 1) ==
      match (WalkFirst(w, n, k), Walk(w, b, false))
      case (Good(d), Good(e)) => Good(Add(d, e))
      case _ => Bad
  {}

  lemma RootHas(w: World, t: BrefType, z: nat)
    requires w.Valid() && IsHeaderType(t) && ZonesIn(w.g, w.size) && Begins(w.size, z)
    ensures w.Has(RootBref(t, z)) && NodeOf(RootBref(t, z)) == ZoneNode(t, z)
  {}

  /** The uncached walk of one of the trees of a zone. */
  ghost function ZoneWalk(w: World, t: BrefType, z: nat): Walked
    requires w.Valid() && IsHeaderType(t) && ZonesIn(w.g, w.size) && Begins(w.size, z)
  {
    RootHas(w, t, z);
    Walk(w, RootBref(t, z), false)
  }

  /** The two trees never mix: a volume block references no freemap block and vice versa. */
  predicate InVolume(t: BrefType) { t in {Volume, Inode, Indirect, Data, Dirent} }

  predicate InFreemap(t: BrefType) { t in {Freemap, FreemapNode, FreemapLeaf} }

  predicate Fits(root: BrefType, t: BrefType) {
    t == Empty || t.Invalid? || if root == Volume then InVolume(t) else InFreemap(t)
  }

  ghost predicate WellTyped(w: World, root: BrefType) {
    forall n, i :: n in w.g.nodes && Fits(root, n.btype) && 0 <= i < |Entries(w.disk, n)| ==>
      Fits(root, Entries(w.disk, n)[i].btype)
  }

  predicate OnlyVolume(d: Delta) { d.node == 0 && d.leaf == 0 }

  predicate OnlyFreemap(d: Delta) { d.inode == 0 && d.indirect == 0 && d.data == 0 && d.dirent == 0 }

  predicate OnlyOf(root: BrefType, d: Delta) { if root == Volume then OnlyVolume(d) else OnlyFreemap(d) }

  lemma {:induction false} WalkTyped(w: World, root: BrefType, b: Bref, norecurse: bool)
    requires w.Valid() && w.Has(b) && IsHeaderType(root) && WellTyped(w, root) && Fits(root, b.btype)
    ensures Walk(w, b, norecurse).Good? ==> OnlyOf(root, Walk(w, b, norecurse).delta)
    decreases if Radix(b.dataOff) == 0 then 0 else w.g.rank(NodeOf(b)) + 1, 1
  {
    if Radix(b.dataOff) != 0 {
      WalkFirstTyped(w, root, NodeOf(b), |Entries(w.disk, NodeOf(b))|);
    }
  }

  lemma {:induction false} WalkFirstTyped(w: World, root: BrefType, n: Node, k: nat)
    requires w.Valid() && n in w.g.nodes && k <= |Entries(w.disk, n)|
    requires IsHeaderType(root) && WellTyped(w, root) && Fits(root, n.btype)
    ensures WalkFirst(w, n, k).Good? ==> OnlyOf(root, WalkFirst(w, n, k).delta)
    decreases w.g.rank(n) + 1, 0, k
  {
    if k > 0 {
      assert NodeOk(w.disk, w.g, n) && EntryOk(w.g, n, Entries(w.disk, n)[k - 1]);
      WalkFirstTyped(w, root, n, k - 1);
      WalkTyped(w, root, Entries(w.disk, n)[k - 1], false);
    }
  }

  /** Checking less never rejects more. */
  lemma WalkWeaken(w: World, b: Bref)
    requires w.Valid() && w.Has(b) && Walk(w, b, false).Good?
    ensures Walk(w, b, true).Good?
  {}
}
