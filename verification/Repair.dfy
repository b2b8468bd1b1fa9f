/** When every check code below a node is right, and what keeps it so. */
module Repair {
  import opened Media

  /** Every blockref reachable from `n` carries the check code of its block. */
  ghost predicate Clean(hs: Hashes, disk: Disk, g: Graph, n: Node)
    requires WellFormed(disk, g) && n in g.nodes
    decreases g.rank(n)
  {
    && NodeOk(disk, g, n)
    && forall i | 0 <= i < |Entries(disk, n)| :: GoodAt(hs, disk, g, n, i)
  }

  ghost predicate GoodAt(hs: Hashes, disk: Disk, g: Graph, n: Node, i: int)
    requires WellFormed(disk, g) && n in g.nodes && 0 <= i < |Entries(disk, n)|
    decreases g.rank(n), 0
  {
    var b := Entries(disk, n)[i];
    && NodeOk(disk, g, n)
    && EntryOk(g, n, b)
    && (Follows(b) ==> NodeOk(disk, g, NodeOf(b)) && CheckOk(hs, b.methods, b.check, disk[b.dataOff]) && Clean(hs, disk, g, NodeOf(b)))
  }

  /** The first `k` blockrefs of a block are right. */
  ghost predicate AllGood(hs: Hashes, disk: Disk, g: Graph, n: Node, k: nat)
    requires WellFormed(disk, g) && n in g.nodes && k <= |Entries(disk, n)|
  {
    forall i | 0 <= i < k :: GoodAt(hs, disk, g, n, i)
  }

  lemma CleanIffGood(hs: Hashes, disk: Disk, g: Graph, n: Node)
    requires WellFormed(disk, g) && n in g.nodes
    ensures Clean(hs, disk, g, n) <==> AllGood(hs, disk, g, n, |Entries(disk, n)|)
  {
    assert NodeOk(disk, g, n);
  }

  /** Nothing but check codes changed, and nothing at all under nodes that were clean. */
  ghost predicate Kept(hs: Hashes, a: Disk, b: Disk, g: Graph)
    requires WellFormed(a, g)
  {
    && SameButChecks(a, b)
    && forall n {:trigger Clean(hs, a, g, n)} :: n in g.nodes && Clean(hs, a, g, n) ==> Entries(b, n) == Entries(a, n)
  }

  lemma {:induction false} CleanKept(hs: Hashes, a: Disk, b: Disk, g: Graph, n: Node)
    requires WellFormed(a, g) && WellFormed(b, g) && n in g.nodes
    requires Kept(hs, a, b, g) && Clean(hs, a, g, n)
    ensures Clean(hs, b, g, n)
    decreases g.rank(n)
  {
    assert NodeOk(b, g, n) && Entries(b, n) == Entries(a, n);
    forall i | 0 <= i < |Entries(b, n)| ensures GoodAt(hs, b, g, n, i) {
      GoodKept(hs, a, b, g, n, i);
    }
  }

  lemma {:induction false} GoodKept(hs: Hashes, a: Disk, b: Disk, g: Graph, n: Node, i: int)
    requires WellFormed(a, g) && WellFormed(b, g) && n in g.nodes && Kept(hs, a, b, g)
    requires 0 <= i < |Entries(a, n)| && i < |Entries(b, n)| && Entries(a, n)[i] == Entries(b, n)[i]
    requires GoodAt(hs, a, g, n, i)
    ensures GoodAt(hs, b, g, n, i)
    decreases g.rank(n), 0
  {
    var e := Entries(b, n)[i];
    assert NodeOk(b, g, n);
    if Follows(e) {
      CleanKept(hs, a, b, g, NodeOf(e));
      SameEntriesSameBlock(a, b, g, NodeOf(e));
    }
  }

  lemma KeptTransitive(hs: Hashes, a: Disk, b: Disk, c: Disk, g: Graph)
    requires WellFormed(a, g) && WellFormed(b, g)
    requires Kept(hs, a, b, g) && Kept(hs, b, c, g)
    ensures Kept(hs, a, c, g)
  {
    SameButChecksTransitive(a, b, c);
    forall n | n in g.nodes && Clean(hs, a, g, n) ensures Entries(c, n) == Entries(a, n) {
      CleanKept(hs, a, b, g, n);
    }
  }

  /** Rewriting one check code that was not right disturbs no clean node. */
  lemma PatchKept(hs: Hashes, a: Disk, b: Disk, g: Graph, n: Node, i: int, c: Check)
    requires WellFormed(a, g) && n in g.nodes && 0 <= i < |Entries(a, n)|
    requires Follows(Entries(a, n)[i])
    requires var e := Entries(a, n)[i]; e.dataOff in a && !CheckOk(hs, e.methods, e.check, a[e.dataOff])
    requires b == a[n.off := PutCheck(n.btype, a[n.off], i, c)]
    ensures Kept(hs, a, b, g) && WellFormed(b, g)
    ensures Entries(b, n) == Entries(a, n)[i := Entries(a, n)[i].(check := c)]
    ensures forall m :: m in g.nodes && m != n ==> Entries(b, m) == Entries(a, m)
    ensures forall d :: d in a && d != n.off ==> b[d] == a[d]
  {
    assert NodeOk(a, g, n);
    forall d | d in a ensures SameBlock(a[d], b[d]) {}
    WellFormedStable(a, b, g);
    forall m | m in g.nodes && m != n ensures Entries(b, m) == Entries(a, m) {
      assert NodeOk(a, g, m) && !(Aliased(m, n) && !IsHeaderType(n.btype) && !IsHeaderType(m.btype));
      assert Aliased(n, m) ==> IsHeaderType(n.btype);
    }
    assert !GoodAt(hs, a, g, n, i);
  }
}
