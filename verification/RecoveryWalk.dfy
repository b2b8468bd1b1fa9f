/** The directory walk of the recovery command, on media where directory entries and indirect
    blocks may form any cycles. */
module RecoveryWalk {
  import opened RecoveryPaths

  lemma Fewer<T>(all: set<T>, marked: set<T>, t: T)
    requires t in all && t !in marked
    ensures |all - (marked + {t})| < |all - marked|
  {
    assert all - marked == (all - (marked + {t})) + {t};
  }

  lemma NotMore<T>(all: set<T>, marked: set<T>, less: set<T>)
    requires less <= marked
    ensures |all - marked| <= |all - less|
  {
    assert all - less == (all - marked) + ((marked - less) * all);
  }

  function Upto(n: nat): (r: set<nat>)
    ensures forall j: nat {:trigger j in r} :: j in r <==> j < n
  {
    if n == 0 then {} else Upto(n - 1) + {n - 1}
  }

  /** No pair occurs twice. */
  ghost predicate NoDup<T>(s: seq<T>) { forall i, j :: 0 <= i < j < |s| ==> s[i] != s[j] }

  lemma NoDupAppend<T>(s: seq<T>, x: T)
    requires NoDup(s) && x !in s
    ensures NoDup(s + [x]) && forall y {:trigger y in s + [x]} :: y in s + [x] <==> y in s || y == x
  {}

  class Walk {
    /** The inodes that were recorded; an inode is named by its index. */
    const inodes: seq<Inode>
    /** The indirect blocks that can be read, by offset and by each check code that they pass. */
    const blocks: map<(nat, nat), seq<Bref>>
    /** A volume holds the offset, and a block of its radix fits the buffer. */
    const held: nat -> bool
    var loopcheck: set<nat>
    var encountered: set<nat>
    var seenInode: set<(Path, nat)>
    var seenBlock: set<(Path, nat)>
    /** The next version number for each path, and the files written so far. */
    var versions: map<Path, nat>
    var written: seq<(Path, nat)>
    /** What was processed, scanned and met, in order. */
    ghost var processed: seq<(Path, nat)>
    ghost var visits: seq<Visit>
    ghost var listings: seq<Listing>
    ghost var meetings: seq<Meeting>

    ghost function Media(): Found { Found(inodes, blocks, held) }

    ghost function Now(): Log
      reads this
    {
      Log(processed, visits, listings, meetings, written, encountered, seenInode, seenBlock)
    }

    /** The walk is at a path, inside of the inodes that are marked. */
    ghost function At(dest: Path, remain: string, depth: nat): Spot
      reads this`loopcheck
    {
      Spot(dest, remain, depth, loopcheck)
    }

    ghost predicate Valid()
      reads this
    {
      && loopcheck <= Upto(|inodes|)
      && NoDup(processed) && (forall q {:trigger q in processed} :: q in processed <==> q in seenInode)
      && NoDup(written) && (forall k :: 0 <= k < |written| ==> written[k].0 in versions && written[k].1 < versions[written[k].0])
      && VisitsOk() && MeetingsOk()
    }

    /** A visit for each pair that was processed. */
    ghost predicate VisitsOk()
      reads this`processed, this`visits
    {
      |visits| == |processed| && forall k :: 0 <= k < |visits| ==> processed[k] == (visits[k].spot.path, visits[k].inode)
    }

    /** A meeting for each indirect block that was seen. */
    ghost predicate MeetingsOk()
      reads this`meetings, this`seenBlock
    {
      && (forall k :: 0 <= k < |meetings| ==> (meetings[k].spot.path, meetings[k].off) in seenBlock)
      && (forall q :: q in seenBlock ==> exists k :: 0 <= k < |meetings| && q == (meetings[k].spot.path, meetings[k].off))
    }

    constructor (inodes: seq<Inode>, blocks: map<(nat, nat), seq<Bref>>, held: nat -> bool)
      ensures Valid() && loopcheck == {} && Now() == Log([], [], [], [], [], {}, {}, {})
      ensures this.inodes == inodes && this.blocks == blocks && this.held == held
    {
      this.inodes, this.blocks, this.held := inodes, blocks, held;
      loopcheck, encountered, seenInode, seenBlock, versions := {}, {}, {}, {}, map[];
      written, processed, visits, listings, meetings := [], [], [], [], [];
    }

    /** What every call keeps: marks are restored, nothing seen is forgotten. */
    twostate predicate Progress()
      reads this
    {
      loopcheck == old(loopcheck) && Onward(old(Now()), Now())
    }

    /** The inode was processed at this path, unless it cannot be read any more, or the walk is
        deep and it was encountered before. */
    ghost predicate HandledAt(dest: Path, i: nat, depth: nat)
      requires i < |inodes|
      reads this
    {
      Handled(Media(), Now(), dest, i, depth)
    }

    /** The number of the next version of a file. */
    function Version(dest: Path): nat
      reads this`versions
    {
      if dest in versions then versions[dest] else 1
    }

    /** The inode is passed over: it changed on the media, or is met again. */
    predicate Skips(dest: Path, i: nat, depth: nat)
      requires i < |inodes|
      reads this`encountered, this`seenInode
    {
      !inodes[i].intact || (depth > REPINODEDEPTH && i in encountered) || (dest, i) in seenInode
    }

    /** The entries of a directory that match the rest of the path were followed. */
    ghost predicate AllHandled(dest: Path, remain: string, base: seq<Bref>, n: nat, depth: nat)
      requires n <= |base|
      reads this
    {
      Followed(Media(), Now(), At(dest, remain, depth), base, n)
    }

    /** How far the recursion can still go: inodes that are not marked, blocks not yet seen at
        this path. */
    ghost function Unmarked(): nat
      reads this`loopcheck
    {
      |Upto(|inodes|) - loopcheck|
    }

    ghost function Unseen(dest: Path): nat
      reads this`seenBlock
    {
      UnseenIn(seenBlock, dest)
    }

    ghost function UnseenIn(seen: set<(Path, nat)>, dest: Path): nat {
      |Offsets() - SeenAt(seen, dest)|
    }

    ghost function SeenAt(seen: set<(Path, nat)>, dest: Path): set<nat> { set b | b in Offsets() && (dest, b) in seen }

    ghost function Offsets(): set<nat> { set k | k in blocks.Keys :: k.0 }

    lemma UnseenLess(a: Log, b: Log, dest: Path)
      requires Onward(a, b)
      ensures UnseenIn(b.seenBlock, dest) <= UnseenIn(a.seenBlock, dest)
    {
      NotMore(Offsets(), SeenAt(b.seenBlock, dest), SeenAt(a.seenBlock, dest));
    }

    lemma UnseenFewer(seen: set<(Path, nat)>, dest: Path, off: nat, check: nat)
      requires (off, check) in blocks && (dest, off) !in seen
      ensures UnseenIn(seen + {(dest, off)}, dest) < UnseenIn(seen, dest)
    {
      assert off in Offsets();
      assert SeenAt(seen + {(dest, off)}, dest) == SeenAt(seen, dest) + {off};
      Fewer(Offsets(), SeenAt(seen, dest), off);
    }

    /** `topology_check_duplicate_inode`. */
    method DuplicateInode(dest: Path, i: nat, ghost v: Visit) returns (dup: bool)
      requires Valid() && v.spot.path == dest && v.inode == i
      modifies this`seenInode, this`processed, this`visits
      ensures Valid() && old(seenInode) <= seenInode && dup == ((dest, i) in old(seenInode)) && (dest, i) in seenInode
      ensures processed == if dup then old(processed) else old(processed) + [(dest, i)]
      ensures if dup then Now() == old(Now()) else Visited(old(Now()), Now(), v) && written == old(written)
    {
      dup := (dest, i) in seenInode;
      if !dup {
        NoDupAppend(processed, (dest, i));
        seenInode := seenInode + {(dest, i)};
        processed := processed + [(dest, i)];
        visits := visits + [v];
      }
    }

    /** `topology_check_duplicate_indirect`. */
    method DuplicateIndirect(dest: Path, off: nat, ghost m: Meeting) returns (dup: bool)
      requires Valid() && m.spot.path == dest && m.off == off
      modifies this`seenBlock, this`meetings
      ensures Valid() && dup == ((dest, off) in old(seenBlock)) && seenBlock == old(seenBlock) + {(dest, off)}
      ensures Now() == if dup then old(Now()) else old(Now()).(meetings := old(meetings) + [m], seenBlock := seenBlock)
    {
      hide Walk.VisitsOk, NoDup;
      dup := (dest, off) in seenBlock;
      if dup {
        assert seenBlock + {(dest, off)} == seenBlock;
      } else {
        seenBlock := seenBlock + {(dest, off)};
        meetings := meetings + [m];
        assert forall k :: 0 <= k < old(|meetings|) ==> meetings[k] == old(meetings)[k];
        assert meetings[|meetings| - 1] == m;
      }
    }

    /** Write another version of a file. */
    method WriteFile(dest: Path)
      requires Valid()
      modifies this`versions, this`written
      ensures Valid() && written == old(written) + [(dest, old(Version(dest)))]
    {
      var k := Version(dest);
      versions := versions[dest := k + 1];
      written := written + [(dest, k)];
    }

    /** `dump_tree`: each pair of a path and an inode is processed at most once.  A file is written
        once for each of its inodes if the path is used up; a directory is followed.  What is
        processed is at the end of a chain of entries that match the path, and what is behind
        each is followed in the same way. */
    method DumpTree(i: nat, dest: Path, remain: string, depth: nat, isafile: bool)
      requires Valid() && i < |inodes|
      modifies this
      ensures Valid() && Progress() && HandledAt(dest, i, depth)
      ensures old(Skips(dest, i, depth)) ==> processed == old(processed) && written == old(written)
      ensures !old(Skips(dest, i, depth)) ==> old(processed) + [(dest, i)] <= processed
      ensures !old(Skips(dest, i, depth)) && inodes[i].kind in {File, Softlink} && Strip(remain) == [] ==>
        written == old(written) + [(dest, old(Version(dest)))]
      ensures !old(Skips(dest, i, depth)) && inodes[i].kind.Directory? && (!isafile || Strip(remain) != []) ==>
                AllHandled(dest, Strip(remain), inodes[i].blockset, |inodes[i].blockset|, depth)
      ensures GrowsTree(Media(), i, At(dest, Strip(remain), depth), isafile, old(Now()), Now())
      ensures !old(Skips(dest, i, depth)) ==> old(visits) + [Visit(At(dest, Strip(remain), depth), i)] <= visits
      decreases Unmarked(), 2, 0, 0
    {
      hide Walk.Valid, Strip, NoDup, Walk.AllHandled, GrowsTree, Visited, Onward;
      var inode := inodes[i];
      ghost var before, spot := Now(), At(dest, Strip(remain), depth);
      TreeSelf(Media(), i, spot, isafile, before);
      OnwardSelf(before);
      if !inode.intact || (depth > REPINODEDEPTH && i in encountered) {
        return;
      }
      var rest := Strip(remain);
      StripTwice(remain);
      var dup := DuplicateInode(dest, i, Visit(spot, i));
      if dup {
        return;
      }
      DumpInode(i, dest, rest, depth, isafile, before);
    }

    /** The part of `dump_tree` for an inode that is met for the first time. */
    method DumpInode(i: nat, dest: Path, rest: string, depth: nat, isafile: bool, ghost before: Log)
      requires Valid() && i < |inodes| && Strip(rest) == rest && (dest, i) in seenInode
      requires Visited(before, Now(), Visit(At(dest, rest, depth), i)) && processed == before.processed + [(dest, i)]
      modifies this
      ensures Valid() && loopcheck == old(loopcheck) && Onward(before, Now()) && (dest, i) in seenInode
      ensures before.processed + [(dest, i)] <= processed
      ensures inodes[i].kind in {File, Softlink} && rest == [] ==> written == old(written) + [(dest, old(Version(dest)))]
      ensures inodes[i].kind.Directory? && (!isafile || rest != []) ==>
                AllHandled(dest, rest, inodes[i].blockset, |inodes[i].blockset|, depth)
      ensures GrowsTree(Media(), i, At(dest, rest, depth), isafile, before, Now())
      ensures before.visits + [Visit(At(dest, rest, depth), i)] <= visits
      decreases Unmarked(), 1, Unseen(dest), 4
    {
      hide Walk.Valid, Strip, NoDup, Walk.AllHandled, GrowsTree, Grows, VisitDone, Onward, ScannedTo, Visited;
      ghost var spot := At(dest, rest, depth);
      ghost var entered := Now();
      match inodes[i].kind {
        case Directory =>
          if isafile && rest == [] {
            TreeFromLeaf(Media(), i, spot, isafile, before, entered, Now());
            TreeOnward(Media(), i, spot, isafile, before, Now());
            return;
          }
          if depth != 1 {
            var made: bool := *;
            if made {
              MarkEncountered(i);
            }
          }
          VisitedMarked(before, entered, Visit(spot, i), Now());
          entered := Now();
          var res := DumpDirData(dest, rest, inodes[i].blockset, depth, isafile);
          OnwardFacts(entered, Now());
          VisitScanned(Media(), i, spot, isafile, entered, Now());
          TreeFromDirectory(Media(), i, spot, isafile, before, entered, Now());
        case File =>
          if rest == [] {
            MarkEncountered(i);
            WriteFile(dest);
          }
          TreeFromLeaf(Media(), i, spot, isafile, before, entered, Now());
        case Softlink =>
          if rest == [] {
            WriteFile(dest);
          }
          TreeFromLeaf(Media(), i, spot, isafile, before, entered, Now());
        case Other =>
          TreeFromLeaf(Media(), i, spot, isafile, before, entered, Now());
      }
      TreeOnward(Media(), i, spot, isafile, before, Now());
    }

    method MarkEncountered(i: nat)
      requires Valid()
      modifies this`encountered
      ensures Valid() && encountered == old(encountered) + {i}
    {
      encountered := encountered + {i};
    }

    /** Walk one inode, marked so that the walk does not enter it a second time. */
    method Enter(i: nat, path: Path, remain: string, depth: nat, isafile: bool)
      requires Valid() && i < |inodes| && i !in loopcheck
      modifies this
      ensures Valid() && Progress() && HandledAt(path, i, depth)
      ensures GrowsTree(Media(), i, Spot(path, Strip(remain), depth, loopcheck + {i}), isafile, old(Now()), Now())
      decreases Unmarked(), 0, 0, 0
    {
      hide GrowsTree, Strip, Handled, Onward, NoDup, Walk.VisitsOk, Walk.MeetingsOk, Followed;
      Fewer(Upto(|inodes|), loopcheck, i);
      ghost var before, marks := Now(), loopcheck;
      loopcheck := loopcheck + {i};
      assert Now() == before;
      DumpTree(i, path, remain, depth, isafile);
      loopcheck := loopcheck - {i};
    }

    /** Every recorded copy of the inode of a directory entry, except those that the walk is
        inside of. */
    method DumpEntry(dest: Path, remain: string, bref: Bref, depth: nat, isafile: bool)
      requires Valid() && bref.Dirent? && Component(remain) <= remain
      modifies this
      ensures Valid() && Progress() && EntryHandled(Media(), Now(), At(dest, remain, depth), bref)
      ensures Strip(remain) == remain && Matches(Media(), remain, bref) ==>
        Grows(Media(), [bref], At(dest, remain, depth), isafile, old(Now()), Now())
      decreases Unmarked(), 1, Unseen(dest), 0
    {
      hide Walk.Valid, Component, Strip, NoDup, Grows, GrowsTree;
      ghost var spot := At(dest, remain, depth);
      GrowsSelf(Media(), [bref], spot, isafile, Now());
      var path := dest + "/" + bref.name;
      var i := 0;
      while i < |inodes|
        invariant 0 <= i <= |inodes| && Valid() && Progress()
        invariant forall k {:trigger inodes[k]} ::
          0 <= k < i && inodes[k].inum == bref.inum && inodes[k].kind == bref.kind && k !in loopcheck ==>
            HandledAt(path, k, depth + 1)
        invariant Strip(remain) == remain && Matches(Media(), remain, bref) ==>
          Grows(Media(), [bref], spot, isafile, old(Now()), Now())
      {
        if inodes[i].inum == bref.inum && i !in loopcheck && inodes[i].kind == bref.kind {
          ghost var before := Now();
          Enter(i, path, remain[|Component(remain)|..], depth + 1, isafile);
          if Strip(remain) == remain && Matches(Media(), remain, bref) {
            GrowsEntry(Media(), spot, bref, i, isafile, before, Now());
            GrowsTwice(Media(), [bref], spot, isafile, old(Now()), before, Now());
          }
        }
        i := i + 1;
      }
    }

    /** An indirect block, unless its offset was met at this path before, whatever the check code
        of the reference was then. */
    method DumpIndirect(dest: Path, remain: string, off: nat, check: nat, depth: nat, isafile: bool) returns (res: bool)
      requires Valid()
      modifies this
      ensures Valid() && Progress() && (dest, off) in seenBlock
      ensures (dest, off) in old(seenBlock) ==> res && processed == old(processed) && written == old(written)
      ensures (dest, off) !in old(seenBlock) && (off, check) !in blocks ==> !res && processed == old(processed) && written == old(written)
      ensures (dest, off) !in old(seenBlock) && (off, check) in blocks ==>
        AllHandled(dest, remain, blocks[(off, check)], |blocks[(off, check)]|, depth)
      ensures Strip(remain) == remain && Located(Media(), Indirect(off, check)) ==>
        Grows(Media(), [Indirect(off, check)], At(dest, remain, depth), isafile, old(Now()), Now())
      decreases Unmarked(), 1, Unseen(dest), 1
    {
      hide Walk.AllHandled, Walk.Valid, Walk.UnseenIn, NoDup, Grows, Strip, Located, ScannedTo, MeetingDone, Followed;
      ghost var spot, bref := At(dest, remain, depth), Indirect(off, check);
      GrowsSelf(Media(), [bref], spot, isafile, Now());
      ghost var before := seenBlock;
      var dup := DuplicateIndirect(dest, off, Meeting(spot, off, check));
      if dup {
        return true;
      }
      ghost var met := Now();
      GrowsSelf(Media(), [bref], spot, isafile, met);
      if (off, check) !in blocks {
        MeetingScanned(Media(), Meeting(spot, off, check), met, met);
        GrowsMeeting(Media(), [bref], Meeting(spot, off, check), isafile, old(Now()), met, met);
        return false;
      }
      UnseenFewer(before, dest, off, check);
      res := DumpDirData(dest, remain, blocks[(off, check)], depth, isafile);
      OnwardTwice(old(Now()), met, Now());
      if Strip(remain) == remain && Located(Media(), bref) {
        BlockInside(Media(), bref);
        GrowsFrom(Media(), blocks[(off, check)], [bref], spot, isafile, met, Now());
        MeetingScanned(Media(), Meeting(spot, off, check), met, Now());
        GrowsMeeting(Media(), [bref], Meeting(spot, off, check), isafile, old(Now()), met, Now());
      }
    }

    /** One reference of a directory: nothing is recorded of one whose block is nowhere. */
    method DumpReference(dest: Path, remain: string, bref: Bref, depth: nat, isafile: bool) returns (res: bool)
      requires Valid() && Component(remain) <= remain
      modifies this
      ensures Valid() && Progress()
      ensures Matches(Media(), remain, bref) ==> EntryHandled(Media(), Now(), At(dest, remain, depth), bref)
      ensures !bref.Empty? && !Located(Media(), bref) ==>
        !res && seenBlock == old(seenBlock) && processed == old(processed) && written == old(written)
      ensures bref.Indirect? && Located(Media(), bref) ==> (dest, bref.dataOff) in seenBlock
      ensures bref.Indirect? && Located(Media(), bref) ==>
        (dest, bref.dataOff) in old(seenBlock) || (bref.dataOff, bref.check) in blocks || !res
      ensures Strip(remain) == remain ==> Grows(Media(), [bref], At(dest, remain, depth), isafile, old(Now()), Now())
      decreases Unmarked(), 1, Unseen(dest), 2
    {
      hide Walk.Valid, Component, Strip, NoDup, EntryHandled, Walk.AllHandled, Grows;
      GrowsSelf(Media(), [bref], At(dest, remain, depth), isafile, Now());
      res := true;
      var flen := |Component(remain)|;
      if !bref.Empty? && bref.dataOff % 32 != 0 && !held(bref.dataOff) {
        return false;
      }
      match bref {
        case Empty =>
        case Dirent(name, _, _, valid, _) =>
          if valid && (flen == 0 || (flen == |name| && name == remain[..flen])) {
            DumpEntry(dest, remain, bref, depth, isafile);
          }
        case Indirect(off, check) =>
          if off % 32 == 0 {
            return false;
          }
          res := DumpIndirect(dest, remain, off, check, depth, isafile);
      }
    }

    /** `dump_dir_data`: all entries that match the next component of the path are followed, and
        all indirect blocks are scanned, or the result is false. */
    method DumpDirData(dest: Path, remain: string, base: seq<Bref>, depth: nat, isafile: bool) returns (res: bool)
      requires Valid()
      modifies this
      ensures Valid() && Progress() && AllHandled(dest, remain, base, |base|, depth)
      ensures ScannedTo(Media(), Now(), At(dest, remain, depth), base, |base|, res)
      ensures Strip(remain) == remain ==>
        Grows(Media(), base, At(dest, remain, depth), isafile, old(Now()), Now())
        && old(listings) + [Listing(At(dest, remain, depth), base)] <= listings
      decreases Unmarked(), 1, Unseen(dest), 3
    {
      hide Walk.Valid, Component, Strip, NoDup, Located, Walk.Unmarked, Walk.UnseenIn, Grows, Followed, EntryHandled, Matches,
        ScannedTo, Onward;
      res := true;
      ghost var spot := At(dest, remain, depth);
      Record(Listing(spot, base));
      ghost var begun := Now();
      OnwardSelf(begun);
      GrowsSelf(Media(), base, spot, isafile, begun);
      ScannedNone(Media(), begun, spot, base);
      ComponentPrefix(remain);
      var n: nat := 0;
      while n < |base|
        invariant n <= |base| && Valid() && At(dest, remain, depth) == spot && Onward(begun, Now())
        invariant ScannedTo(Media(), Now(), spot, base, n, res)
        invariant Strip(remain) == remain ==> Grows(Media(), base, spot, isafile, begun, Now())
      {
        ghost var before := Now();
        UnseenLess(begun, before, dest);
        var r := DumpReference(dest, remain, base[n], depth, isafile);
        OnwardTwice(begun, before, Now());
        ScannedNext(Media(), spot, base, n, res, r, before, Now());
        res := res && r;
        if Strip(remain) == remain {
          OneInside(Media(), base, base[n]);
          GrowsFrom(Media(), [base[n]], base, spot, isafile, before, Now());
          GrowsTwice(Media(), base, spot, isafile, begun, before, Now());
        }
        n := n + 1;
      }
      OnwardTwice(old(Now()), begun, Now());
      ScannedAll(Media(), Now(), spot, base, res);
      if Strip(remain) == remain {
        GrowsListing(Media(), Listing(spot, base), isafile, old(Now()), begun, Now());
      }
    }

    /** In a walk from nothing: the block of an indirect reference that was scanned was met at the
        path, and scanned if it could be read with the check code of the reference that came first. */
    lemma EveryBlock(i: nat, from: Spot, isafile: bool, l: Listing, b: Bref)
      requires Valid() && i < |inodes| && GrowsTree(Media(), i, from, isafile, NOTHING, Now())
      requires l in listings && b in l.base && b.Indirect? && Located(Media(), b)
      ensures exists m {:trigger m in meetings} ::
        m in meetings && m.spot.path == l.spot.path && m.off == b.dataOff &&
          ((m.off, m.check) in blocks ==> Listing(m.spot, blocks[(m.off, m.check)]) in listings)
    {
      var k :| 0 <= k < |listings| && listings[k] == l;
      assert ListingDone(Media(), Now(), Now().listings[k]);
      var n :| 0 <= n < |l.base| && l.base[n] == b;
      assert (l.spot.path, l.base[n].dataOff) in seenBlock;
      var q :| 0 <= q < |meetings| && (l.spot.path, b.dataOff) == (meetings[q].spot.path, meetings[q].off);
      assert MeetingDone(Media(), Now(), Now().meetings[q]);
      assert meetings[q] in meetings;
    }

    /** Only the record changes. */
    ghost method Record(l: Listing)
      requires Valid()
      modifies this`listings
      ensures Valid() && listings == old(listings) + [l] && Onward(old(Now()), Now())
    {
      listings := listings + [l];
    }
  }
}
