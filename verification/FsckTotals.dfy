/** Sums over everything that lies below a blockref, along every path: what the statistics and
    the verdict of a walk come to. */
module FsckTotals {
  import opened Basics
  import opened Media
  import opened FsckWalk

  /** The sum of `weight` over `b` and all that is below it, a shared block once for each path. */
  ghost function Total(w: World, weight: Bref -> nat, b: Bref): nat
    requires w.Valid() && w.Has(b)
    decreases if Radix(b.dataOff) == 0 then 0 else w.g.rank(NodeOf(b)) + 1, 1
  {
    weight(b) + if Radix(b.dataOff) == 0 then 0 else TotalFirst(w, weight, NodeOf(b), |Entries(w.disk, NodeOf(b))|)
  }

  /** The same for the first `k` blockrefs of a block. */
  ghost function TotalFirst(w: World, weight: Bref -> nat, n: Node, k: nat): nat
    requires w.Valid() && n in w.g.nodes && k <= |Entries(w.disk, n)|
    decreases w.g.rank(n) + 1, 0, k
  {
    if k == 0 then 0
    else
      ChildHas(w, n, k - 1);
      TotalFirst(w, weight, n, k - 1) + Total(w, weight, Entries(w.disk, n)[k - 1])
  }

  /** One for each blockref of the type. */
  function OfType(t: BrefType): Bref -> nat { (b: Bref) => if b.btype == t then 1 else 0 }

  /** One for each blockref that is no header, empty ones only if they are to be counted. */
  function Blockrefs(countEmpty: bool): Bref -> nat {
    (b: Bref) => if b.btype in {Volume, Freemap} || (b.btype == Empty && !countEmpty) then 0 else 1
  }

  /** The size of the block, if the blockref names one and is no header. */
  function Sizes(): Bref -> nat {
    (b: Bref) => if b.btype in {Volume, Freemap} || b.dataOff % 64 == 0 then 0 else Pow2(b.dataOff % 64)
  }

  /** One for each blockref that is invalid, or whose block cannot be read or fails its check. */
  function Flaws(w: World): Bref -> nat {
    (b: Bref) =>
      if b.btype.Invalid? then 1
      else if Radix(b.dataOff) == 0 then 0
      else if b.dataOff in w.unreadable || b.dataOff !in w.disk then 1
      else if CheckOk(w.hs, b.methods, b.check, w.disk[b.dataOff]) then 0 else 1
  }

  /** Nothing is wrong below a good blockref, and a bad one has something wrong below it. */
  lemma {:induction false} WalkFlaws(w: World, b: Bref)
    requires w.Valid() && w.Has(b)
    ensures Walk(w, b, false).Good? <==> Total(w, Flaws(w), b) == 0
    decreases if Radix(b.dataOff) == 0 then 0 else w.g.rank(NodeOf(b)) + 1, 1
  {
    if Radix(b.dataOff) != 0 {
      assert NodeOk(w.disk, w.g, NodeOf(b));
      FirstFlaws(w, NodeOf(b), |Entries(w.disk, NodeOf(b))|);
    }
  }

  lemma {:induction false} FirstFlaws(w: World, n: Node, k: nat)
    requires w.Valid() && n in w.g.nodes && k <= |Entries(w.disk, n)|
    ensures WalkFirst(w, n, k).Good? <==> TotalFirst(w, Flaws(w), n, k) == 0
    decreases w.g.rank(n) + 1, 0, k
  {
    if k > 0 {
      hide Walk, Total;
      ChildHas(w, n, k - 1);
      FirstFlaws(w, n, k - 1);
      WalkFlaws(w, Entries(w.disk, n)[k - 1]);
      FirstNext(w, n, k - 1, Entries(w.disk, n)[k - 1]);
    }
  }

  /** The statistics are the totals below `b`. */
  ghost predicate Tallies(w: World, d: Delta, b: Bref)
    requires w.Valid() && w.Has(b)
  {
    && d.blockref == Total(w, Blockrefs(w.opts.countEmpty), b) && d.bytes == Total(w, Sizes(), b)
    && d.empty == (if w.opts.countEmpty then Total(w, OfType(Empty), b) else 0)
    && d.inode == Total(w, OfType(Inode), b) && d.indirect == Total(w, OfType(Indirect), b)
    && d.data == Total(w, OfType(Data), b) && d.dirent == Total(w, OfType(Dirent), b)
    && d.node == Total(w, OfType(FreemapNode), b) && d.leaf == Total(w, OfType(FreemapLeaf), b)
  }

  ghost predicate TalliesFirst(w: World, d: Delta, n: Node, k: nat)
    requires w.Valid() && n in w.g.nodes && k <= |Entries(w.disk, n)|
  {
    && d.blockref == TotalFirst(w, Blockrefs(w.opts.countEmpty), n, k) && d.bytes == TotalFirst(w, Sizes(), n, k)
    && d.empty == (if w.opts.countEmpty then TotalFirst(w, OfType(Empty), n, k) else 0)
    && d.inode == TotalFirst(w, OfType(Inode), n, k) && d.indirect == TotalFirst(w, OfType(Indirect), n, k)
    && d.data == TotalFirst(w, OfType(Data), n, k) && d.dirent == TotalFirst(w, OfType(Dirent), n, k)
    && d.node == TotalFirst(w, OfType(FreemapNode), n, k) && d.leaf == TotalFirst(w, OfType(FreemapLeaf), n, k)
  }

  /** One blockref, under its type. */
  predicate OnceByType(opts: Options, b: Bref, d: Delta) {
    && d.blockref == Blockrefs(opts.countEmpty)(b) && d.empty == (if opts.countEmpty then OfType(Empty)(b) else 0)
    && d.inode == OfType(Inode)(b) && d.indirect == OfType(Indirect)(b) && d.data == OfType(Data)(b)
    && d.dirent == OfType(Dirent)(b) && d.node == OfType(FreemapNode)(b) && d.leaf == OfType(FreemapLeaf)(b)
  }

  /** What one blockref counts for by itself. */
  lemma OwnTallies(w: World, b: Bref)
    requires w.Has(b) && !b.btype.Invalid?
    ensures OnceByType(w.opts, b, Own(w.opts, b)) && Own(w.opts, b).bytes == Sizes()(b)
  {}

  lemma {:induction false} WalkTallies(w: World, b: Bref)
    requires w.Valid() && w.Has(b) && Walk(w, b, false).Good?
    ensures Tallies(w, Walk(w, b, false).delta, b)
    decreases if Radix(b.dataOff) == 0 then 0 else w.g.rank(NodeOf(b)) + 1, 1
  {
    OwnTallies(w, b);
    WalkOne(w, b, false);
    if Radix(b.dataOff) == 0 {
      LeafTallies(w, b);
    } else {
      hide Own, OnceByType, TalliesFirst, Tallies, Sizes, Walk, WalkFirst;
      var n, k := NodeOf(b), |Entries(w.disk, NodeOf(b))|;
      FirstTallies(w, n, k);
      BlockTallies(w, b, Own(w.opts, b), WalkFirst(w, n, k).delta);
    }
  }

  lemma LeafTallies(w: World, b: Bref)
    requires w.Valid() && w.Has(b) && Radix(b.dataOff) == 0 && !b.btype.Invalid?
    ensures Tallies(w, Own(w.opts, b), b)
  {
    OwnTallies(w, b);
    hide Own;
  }

  /** A block's own count and that of all it holds. */
  lemma BlockTallies(w: World, b: Bref, own: Delta, rest: Delta)
    requires w.Valid() && w.Has(b) && Radix(b.dataOff) != 0
    requires OnceByType(w.opts, b, own) && own.bytes == Sizes()(b)
    requires TalliesFirst(w, rest, NodeOf(b), |Entries(w.disk, NodeOf(b))|)
    ensures Tallies(w, Add(own, rest), b)
  {
    var e := w.opts.countEmpty;
    TotalAt(w, Blockrefs(e), b);
    TotalAt(w, Sizes(), b);
    TotalAt(w, OfType(Empty), b);
    TotalAt(w, OfType(Inode), b);
    TotalAt(w, OfType(Indirect), b);
    TotalAt(w, OfType(Data), b);
    TotalAt(w, OfType(Dirent), b);
    TotalAt(w, OfType(FreemapNode), b);
    TotalAt(w, OfType(FreemapLeaf), b);
    hide Total, OfType, Blockrefs, Sizes, World.Valid;
  }

  lemma TotalAt(w: World, weight: Bref -> nat, b: Bref)
    requires w.Valid() && w.Has(b) && Radix(b.dataOff) != 0
    ensures Total(w, weight, b) == weight(b) + TotalFirst(w, weight, NodeOf(b), |Entries(w.disk, NodeOf(b))|)
  {}

  lemma {:induction false} FirstTallies(w: World, n: Node, k: nat)
    requires w.Valid() && n in w.g.nodes && k <= |Entries(w.disk, n)| && WalkFirst(w, n, k).Good?
    ensures TalliesFirst(w, WalkFirst(w, n, k).delta, n, k)
    decreases w.g.rank(n) + 1, 0, k
  {
    hide Own, OfType, Blockrefs, Sizes, Walk, Total;
    if k > 0 {
      ChildHas(w, n, k - 1);
      var c := Entries(w.disk, n)[k - 1];
      FirstNext(w, n, k - 1, c);
      FirstTallies(w, n, k - 1);
      WalkTallies(w, c);
    }
  }

  /** The sum over one of the trees of a zone, from the volume header on. */
  ghost function ZoneTotal(w: World, weight: Bref -> nat, t: BrefType, z: nat): nat
    requires w.Valid() && IsHeaderType(t) && ZonesIn(w.g, w.size) && Begins(w.size, z)
  {
    RootHas(w, t, z);
    Total(w, weight, RootBref(t, z))
  }

  lemma ZoneFlaws(w: World, t: BrefType, z: nat)
    requires w.Valid() && IsHeaderType(t) && ZonesIn(w.g, w.size) && Begins(w.size, z)
    ensures ZoneWalk(w, t, z).Good? <==> ZoneTotal(w, Flaws(w), t, z) == 0
  {
    RootHas(w, t, z);
    WalkFlaws(w, RootBref(t, z));
  }
}
