/** A volume on which the cache goes wrong: the first zone leads to a block with a bad check
    code, below which is one whose own check code is right and which references a bad block. */
module FsckExample {
  import opened Basics
  import opened Media
  import opened FsckWalk
  import opened FsckMemo
  import opened Fsck

  const TOP := 0x10010
  const MIDDLE := 0x20010
  const BOTTOM := 0x30010

  /** A blockref with an ISCSI32 check code; on this volume the right one is always 7. */
  function Ref(t: BrefType, off: nat, code: u32): Bref {
    Bref(t, HAMMER2_CHECK_ISCSI32 as byte * 16, off, NoCheck.(lo := code), [])
  }

  const Hole := Bref(Empty, 0, 0, NoCheck, [])
  const Root := RootBref(Volume, 0)
  const Parent := Ref(Inode, TOP, 0)
  const Child := Ref(Indirect, MIDDLE, 7)
  const Grandchild := Ref(Data, BOTTOM, 0)

  function First(b: Bref): (bs: seq<Bref>)
    ensures |bs| == HAMMER2_SET_COUNT && bs[0] == b && forall i :: 1 <= i < |bs| ==> bs[i] == Hole
  {
    [b, Hole, Hole, Hole]
  }

  function Volume4(): Disk {
    map[HAMMER2_PBUFRADIX := HeaderBlock(Header(HAMMER2_VOLUME_ID_HBO, [], 0, 0, First(Parent), First(Hole), [], 0)),
        TOP := InodeBlock(false, First(Child), []),
        MIDDLE := IndirectBlock([Grandchild]),
        BOTTOM := LeafBlock([])]
  }

  function Rank4(n: Node): nat {
    if n.off == HAMMER2_PBUFRADIX then 3 else if n.off == TOP then 2 else if n.off == MIDDLE then 1 else 0
  }

  ghost function Graph4(): Graph {
    Graph({ZoneNode(Volume, 0), ZoneNode(Freemap, 0), NodeOf(Parent), NodeOf(Child), NodeOf(Grandchild)}, Rank4)
  }

  /** A volume of 1GB: only its first zone begins. */
  ghost function World4(hs: Hashes): World {
    World(hs, Volume4(), 0x4000_0000, {}, Options(false, false, 1), Graph4())
  }

  ghost predicate Sevens(hs: Hashes) { forall b :: hs.icrc32(b) == 7 }

  lemma WorldValid(hs: Hashes)
    ensures var w := World4(hs); w.Valid() && ZonesIn(w.g, w.size)
    ensures var w := World4(hs); w.Has(Root) && w.Has(Parent) && w.Has(Child) && w.Has(Grandchild)
  {
    var w := World4(hs);
    assert NodeOk(w.disk, w.g, NodeOf(Grandchild));
    assert EntryOk(w.g, NodeOf(Child), Grandchild) && EntryOk(w.g, NodeOf(Parent), Child);
    assert NodeOk(w.disk, w.g, NodeOf(Child));
    assert NodeOk(w.disk, w.g, NodeOf(Parent));
    assert EntryOk(w.g, ZoneNode(Volume, 0), Parent);
    assert NodeOk(w.disk, w.g, ZoneNode(Volume, 0));
    assert NodeOk(w.disk, w.g, ZoneNode(Freemap, 0));
  }

  /** Which check codes are right. */
  lemma Checks(hs: Hashes)
    requires Sevens(hs)
    ensures forall b :: !CheckOk(hs, Parent.methods, Parent.check, b)
    ensures forall b :: CheckOk(hs, Child.methods, Child.check, b)
    ensures forall b :: !CheckOk(hs, Grandchild.methods, Grandchild.check, b)
    ensures forall b :: CheckOk(hs, Root.methods, Root.check, b)
  {}

  lemma ChildHalfGood(hs: Hashes)
    requires Sevens(hs)
    ensures World4(hs).Valid() && World4(hs).Has(Child)
    ensures HalfGood(World4(hs), Child)
  {
    WorldValid(hs);
    Checks(hs);
    hide WellFormed, CheckOk, Walk, WalkFirst, Sevens;
    var w := World4(hs);
    WalkOne(w, Grandchild, false);
    FirstNext(w, NodeOf(Child), 0, Grandchild);
    WalkOne(w, Child, false);
    WalkOne(w, Child, true);
  }

  /** The child is half good, and the walk from the zone comes to it below its failed parent. */
  lemma ChildSpoils(hs: Hashes)
    requires Sevens(hs)
    ensures World4(hs).Valid() && World4(hs).Has(Root)
    ensures Walk(World4(hs), Root, false).Bad? && Spoils(World4(hs), Root, Child)
  {
    hide HalfGood, Walk, WalkFirst, Spoils;
    WorldValid(hs);
    ChildHalfGood(hs);
    var w := World4(hs);
    assert Entry(w, NodeOf(Parent), 0) == Child && Entry(w, NodeOf(Root), 0) == Parent;
    FirstChildSpoils(w, Parent);
    FirstChildPasses(w, Root, Child);
    FirstNext(w, NodeOf(Root), 0, Parent);
    WalkFirstBad(w, NodeOf(Root), 0, |Entries(w.disk, NodeOf(Root))|);
    WalkOne(w, Root, false);
  }

  /** Test the volume's zones, then verify the child: the test fails, and after it the child
      passes although it does not verify. */
  method HalfVerified(ghost hs: Hashes, w: World) returns (c: Checker, failed: bool, second: bool)
    requires Sevens(hs) && w == World4(hs)
    ensures w.Valid() && w.Has(Child) && c.w == w
    ensures failed && second && Lies(w, c.droot, Child)
  {
    WorldValid(hs);
    ChildSpoils(hs);
    ChildHalfGood(hs);
    c := new Checker(w);
    var totals;
    failed, totals := c.TestBlockref(Volume, false, 0);
    assert Scanned(0, false, 0, w.size) && ZoneWalk(w, Volume, 0).Bad?;
    assert SpoiledFirst(w, Volume, 0, false, 0);
    assert Lies(w, c.droot, Child);
    ghost var before := c.droot;
    var ds;
    second, ds := c.VerifyBlockref(Child, false);
    assert LeavesOn(w, before, c.droot, Child, true, Child);
  }
}
