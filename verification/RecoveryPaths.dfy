/** What a recovery walk should find: the chains of directory entries that match a path, and what
    a record of a walk must show about them. */
module RecoveryPaths {
  type Path = string

  /** What a directory entry or an inode may be. */
  datatype Kind = Directory | File | Softlink | Other

  /** A block reference of a directory.  `valid`: the file name can be read and checked. */
  datatype Bref =
    | Empty
    | Dirent(name: string, inum: nat, kind: Kind, valid: bool, dataOff: nat)
    | Indirect(dataOff: nat, check: nat)

  /** A recorded copy of an inode; `intact`: its block still matches the recorded CRC. */
  datatype Inode = Inode(inum: nat, kind: Kind, intact: bool, blockset: seq<Bref>)

  const REPINODEDEPTH := 256

  /** What the walk looks at: the inodes that were recorded; the indirect blocks that can be read,
      by offset and by each check code that they pass; and whether a volume holds an offset and a
      block of its radix fits the buffer. */
  datatype Found = Found(inodes: seq<Inode>, blocks: map<(nat, nat), seq<Bref>>, held: nat -> bool)

  /** A reference that names a block names one that is there; an indirect one must name one. */
  predicate Located(f: Found, b: Bref)
    requires !b.Empty?
  {
    if b.dataOff % 32 == 0 then b.Dirent? else f.held(b.dataOff)
  }

  // ---------------------------------------------------------------- paths

  /** The first component of a path that remains to be matched. */
  function Component(s: string): string {
    if s == [] || s[0] == '/' then [] else [s[0]] + Component(s[1..])
  }

  lemma {:induction false} ComponentPrefix(s: string)
    ensures Component(s) <= s
  {
    if s != [] && s[0] != '/' {
      ComponentPrefix(s[1..]);
    }
  }

  function Strip(s: string): (r: string)
    ensures |r| <= |s| && (r == [] || r[0] != '/')
  {
    if s != [] && s[0] == '/' then Strip(s[1..]) else s
  }

  /** The components of a path: what is between its slashes. */
  function Components(s: string): (c: seq<string>)
    decreases |s|
  {
    var r := Strip(s);
    if r == [] then []
    else
      ComponentPrefix(r);
      [Component(r)] + Components(r[|Component(r)|..])
  }

  lemma StripTwice(s: string)
    ensures Strip(Strip(s)) == Strip(s) && Components(Strip(s)) == Components(s)
  {}

  /** What is left of a path behind its first component. */
  lemma NextComponent(s: string)
    requires Strip(s) == s
    ensures Component(s) <= s && (Component(s) == [] <==> s == [])
    ensures Components(s[|Component(s)|..]) == Rest(Components(s), 1)
    ensures s != [] ==> Components(s) != [] && Components(s)[0] == Component(s)
  {
    ComponentPrefix(s);
  }

  /** What is left behind the first `n` components. */
  function Rest(c: seq<string>, n: nat): seq<string> { if n <= |c| then c[n..] else [] }

  // ---------------------------------------------------------------- chains of entries

  /** The entry is somewhere in a directory that begins with these references, at most `n`
      indirect blocks down. */
  ghost predicate Within(f: Found, base: seq<Bref>, e: Bref, n: nat)
    decreases n, 0
  {
    e in base || (n > 0 && exists b {:trigger b in base} :: b in base && OpensTo(f, b, e, n - 1))
  }

  ghost predicate OpensTo(f: Found, b: Bref, e: Bref, n: nat)
    decreases n, 1
  {
    Opens(f, b) && Within(f, f.blocks[(b.dataOff, b.check)], e, n)
  }

  /** The reference leads to an indirect block that can be read. */
  ghost predicate Opens(f: Found, b: Bref) { b.Indirect? && Located(f, b) && (b.dataOff, b.check) in f.blocks }

  ghost predicate Inside(f: Found, base: seq<Bref>, e: Bref) { exists n: nat :: Within(f, base, e, n) }

  /** A directory entry, and a copy of the inode that it names. */
  datatype Hop = Hop(entry: Bref, inode: nat)

  ghost predicate HopOk(f: Found, h: Hop) {
    && h.entry.Dirent? && h.entry.valid && Located(f, h.entry)
    && h.inode < |f.inodes| && f.inodes[h.inode].inum == h.entry.inum && f.inodes[h.inode].kind == h.entry.kind
  }

  /** Each entry of the chain is in the directory that the one before leads to, the first one
      behind these references; and their names are those of the path as far as both go. */
  ghost predicate Chain(f: Found, base: seq<Bref>, c: seq<string>, hops: seq<Hop>)
    decreases |hops|
  {
    hops == [] || (
      && HopOk(f, hops[0]) && Inside(f, base, hops[0].entry) && (c != [] ==> hops[0].entry.name == c[0])
      && (|hops| > 1 ==> hops[0].entry.kind.Directory?)
      && Chain(f, f.inodes[hops[0].inode].blockset, Rest(c, 1), hops[1..]))
  }

  function Joined(dest: Path, hops: seq<Hop>): Path
    requires forall k :: 0 <= k < |hops| ==> hops[k].entry.Dirent?
    decreases |hops|
  {
    if hops == [] then dest else Joined(dest + "/" + hops[0].entry.name, hops[1..])
  }

  function InodesOf(hops: seq<Hop>): set<nat>
    decreases |hops|
  {
    if hops == [] then {} else {hops[0].inode} + InodesOf(hops[1..])
  }

  // ---------------------------------------------------------------- the record of a walk

  /** Where a walk is: the path so far, the rest of the one that is looked for, the depth, and the
      inodes that it is inside of. */
  datatype Spot = Spot(path: Path, rest: string, depth: nat, marks: set<nat>)

  /** An inode was processed; a directory, or an indirect block of it, was scanned; an indirect block
      was met for the first time. */
  datatype Visit = Visit(spot: Spot, inode: nat)
  datatype Listing = Listing(spot: Spot, base: seq<Bref>)
  datatype Meeting = Meeting(spot: Spot, off: nat, check: nat)

  datatype Log = Log(
    processed: seq<(Path, nat)>, visits: seq<Visit>, listings: seq<Listing>, meetings: seq<Meeting>,
    written: seq<(Path, nat)>, encountered: set<nat>, seenInode: set<(Path, nat)>, seenBlock: set<(Path, nat)>)

  /** The chain leads from `from`, where these references begin a directory, to the inode. */
  ghost predicate Leads(f: Found, base: seq<Bref>, from: Spot, v: Visit, hops: seq<Hop>) {
    && Chain(f, base, Components(from.rest), hops)
    && (forall k :: 0 <= k < |hops| ==> hops[k].entry.Dirent?)
    && v.spot.path == Joined(from.path, hops) && Components(v.spot.rest) == Rest(Components(from.rest), |hops|)
    && v.spot.depth == from.depth + |hops| && v.spot.marks == from.marks + InodesOf(hops)
    && (hops != [] ==> v.inode == hops[|hops| - 1].inode)
  }

  /** Some chain of at least one entry does. */
  ghost predicate Below(f: Found, base: seq<Bref>, from: Spot, v: Visit) {
    exists hops: seq<Hop> :: hops != [] && Leads(f, base, from, v, hops)
  }

  /** The inode was processed at this path, unless it cannot be read any more, or the walk is
      deep and it was encountered before. */
  ghost predicate Handled(f: Found, log: Log, path: Path, i: nat, depth: nat)
    requires i < |f.inodes|
  {
    f.inodes[i].intact && (depth <= REPINODEDEPTH || i !in log.encountered) ==> (path, i) in log.seenInode
  }

  /** All copies of an entry's inode were, except those that the walk is inside of. */
  ghost predicate EntryHandled(f: Found, log: Log, s: Spot, b: Bref)
    requires b.Dirent?
  {
    forall i {:trigger f.inodes[i]} ::
      0 <= i < |f.inodes| && f.inodes[i].inum == b.inum && f.inodes[i].kind == b.kind && i !in s.marks ==>
        Handled(f, log, s.path + "/" + b.name, i, s.depth + 1)
  }

  /** The entry is wanted: all are when the path is used up. */
  predicate Matches(f: Found, rest: string, b: Bref) {
    b.Dirent? && Located(f, b) && b.valid && (Component(rest) == [] || b.name == Component(rest))
  }

  /** The first `n` of a directory's references: the entries that match the next component were
      followed. */
  ghost predicate Followed(f: Found, log: Log, s: Spot, base: seq<Bref>, n: nat)
    requires n <= |base|
  {
    forall k {:trigger base[k]} :: 0 <= k < n && Matches(f, s.rest, base[k]) ==> EntryHandled(f, log, s, base[k])
  }

  /** All entries that match were followed, and all indirect blocks met. */
  ghost predicate ListingDone(f: Found, log: Log, l: Listing) {
    && Followed(f, log, l.spot, l.base, |l.base|)
    && (forall k {:trigger l.base[k]} :: 0 <= k < |l.base| && l.base[k].Indirect? && Located(f, l.base[k]) ==>
         (l.spot.path, l.base[k].dataOff) in log.seenBlock)
  }

  /** A directory that was processed was scanned. */
  ghost predicate VisitDone(f: Found, log: Log, isafile: bool, v: Visit) {
    && v.inode < |f.inodes|
    && (f.inodes[v.inode].kind.Directory? && (!isafile || v.spot.rest != []) ==>
         Listing(v.spot, f.inodes[v.inode].blockset) in log.listings)
  }

  /** A block that was met and could be read was scanned. */
  ghost predicate MeetingDone(f: Found, log: Log, m: Meeting) {
    (m.off, m.check) in f.blocks ==> Listing(m.spot, f.blocks[(m.off, m.check)]) in log.listings
  }

  /** The files among the visits at which the path is used up. */
  function Outputs(f: Found, visits: seq<Visit>): seq<Path>
    decreases |visits|
  {
    if visits == [] then []
    else
      var v := visits[|visits| - 1];
      Outputs(f, visits[..|visits| - 1]) + if IsOutput(f, v) then [v.spot.path] else []
  }

  /** A file or symbolic link at which the path is used up. */
  predicate IsOutput(f: Found, v: Visit) {
    v.inode < |f.inodes| && f.inodes[v.inode].kind in {File, Softlink} && v.spot.rest == []
  }

  function PathsOf(written: seq<(Path, nat)>): (r: seq<Path>)
    ensures |r| == |written| && forall k :: 0 <= k < |r| ==> r[k] == written[k].0
  {
    seq(|written|, k requires 0 <= k < |written| => written[k].0)
  }

  /** Nothing that was processed, written or seen is forgotten. */
  ghost predicate Onward(a: Log, b: Log) {
    && a.processed <= b.processed && a.written <= b.written
    && a.encountered <= b.encountered && a.seenInode <= b.seenInode && a.seenBlock <= b.seenBlock
  }

  ghost predicate Extends(a: Log, b: Log) {
    Onward(a, b) && a.visits <= b.visits && a.listings <= b.listings && a.meetings <= b.meetings
  }

  lemma OnwardSelf(a: Log)
    ensures Onward(a, a)
  {}

  lemma OnwardFacts(a: Log, b: Log)
    requires Onward(a, b)
    ensures a.processed <= b.processed && a.written <= b.written && a.seenInode <= b.seenInode
  {}

  lemma OnwardTwice(a: Log, b: Log, c: Log)
    requires Onward(a, b) && Onward(b, c)
    ensures Onward(a, c)
  {}

  /** What a call adds to the record is complete, every file that is used up is written and
      nothing else, and every inode is at the end of a matching chain. */
  ghost predicate Grows(f: Found, base: seq<Bref>, from: Spot, isafile: bool, a: Log, b: Log) {
    && Extends(a, b)
    && PathsOf(b.written[|a.written|..]) == Outputs(f, b.visits[|a.visits|..])
    && (forall k {:trigger b.visits[k]} :: |a.visits| <= k < |b.visits| ==>
         VisitDone(f, b, isafile, b.visits[k]) && Below(f, base, from, b.visits[k]))
    && (forall k {:trigger b.listings[k]} :: |a.listings| <= k < |b.listings| ==> ListingDone(f, b, b.listings[k]))
    && (forall k {:trigger b.meetings[k]} :: |a.meetings| <= k < |b.meetings| ==> MeetingDone(f, b, b.meetings[k]))
  }

  /** The same for the walk of one inode, which comes first if it is processed at all. */
  ghost predicate GrowsTree(f: Found, i: nat, from: Spot, isafile: bool, a: Log, b: Log)
    requires i < |f.inodes|
  {
    && Extends(a, b)
    && PathsOf(b.written[|a.written|..]) == Outputs(f, b.visits[|a.visits|..])
    && (forall k {:trigger b.visits[k]} :: |a.visits| <= k < |b.visits| ==>
         VisitDone(f, b, isafile, b.visits[k]) && FromInode(f, i, from, b.visits[k]))
    && (forall k {:trigger b.listings[k]} :: |a.listings| <= k < |b.listings| ==> ListingDone(f, b, b.listings[k]))
    && (forall k {:trigger b.meetings[k]} :: |a.meetings| <= k < |b.meetings| ==> MeetingDone(f, b, b.meetings[k]))
  }

  /** The visit of the inode itself, or of one below it. */
  ghost predicate FromInode(f: Found, i: nat, from: Spot, v: Visit)
    requires i < |f.inodes|
  {
    v == Visit(from, i) || (f.inodes[i].kind.Directory? && Below(f, f.inodes[i].blockset, from, v))
  }

  // ---------------------------------------------------------------- how records grow

  lemma OutputsSplit(f: Found, a: seq<Visit>, b: seq<Visit>)
    ensures Outputs(f, a + b) == Outputs(f, a) + Outputs(f, b)
    decreases |b|
  {
    if b == [] {
      assert a + b == a;
    } else {
      var l := b[..|b| - 1];
      assert (a + b)[..|a + b| - 1] == a + l;
      OutputsSplit(f, a, l);
    }
  }

  lemma PathsSplit(a: seq<(Path, nat)>, b: seq<(Path, nat)>)
    ensures PathsOf(a + b) == PathsOf(a) + PathsOf(b)
  {}

  /** What is done stays done. */
  lemma StaysDone(f: Found, isafile: bool, a: Log, b: Log)
    requires Extends(a, b)
    ensures forall l: Listing {:trigger ListingDone(f, b, l)} :: ListingDone(f, a, l) ==> ListingDone(f, b, l)
    ensures forall v: Visit {:trigger VisitDone(f, b, isafile, v)} :: VisitDone(f, a, isafile, v) ==> VisitDone(f, b, isafile, v)
    ensures forall m: Meeting {:trigger MeetingDone(f, b, m)} :: MeetingDone(f, a, m) ==> MeetingDone(f, b, m)
  {
    hide Followed;
    forall l: Listing {:trigger ListingDone(f, b, l)} | ListingDone(f, a, l) ensures ListingDone(f, b, l) {
      FollowedStays(f, l.spot, l.base, |l.base|, a, b);
    }
  }

  lemma FollowedStays(f: Found, s: Spot, base: seq<Bref>, n: nat, a: Log, b: Log)
    requires n <= |base| && Followed(f, a, s, base, n) && Onward(a, b)
    ensures Followed(f, b, s, base, n)
  {
    forall k {:trigger base[k]} | 0 <= k < n && Matches(f, s.rest, base[k]) ensures EntryHandled(f, b, s, base[k]) {
      assert EntryHandled(f, a, s, base[k]);
    }
  }

  /** The first `n` references were scanned; with a good result, all of them name what is there. */
  ghost predicate ScannedTo(f: Found, log: Log, s: Spot, base: seq<Bref>, n: nat, res: bool)
    requires n <= |base|
  {
    && Followed(f, log, s, base, n)
    && (forall k {:trigger base[k]} :: 0 <= k < n && base[k].Indirect? && Located(f, base[k]) ==>
         (s.path, base[k].dataOff) in log.seenBlock)
    && (res ==> forall k {:trigger base[k]} :: 0 <= k < n && !base[k].Empty? ==> Located(f, base[k]))
  }

  lemma ScannedNone(f: Found, log: Log, s: Spot, base: seq<Bref>)
    ensures ScannedTo(f, log, s, base, 0, true)
  {}

  lemma ScannedNext(f: Found, s: Spot, base: seq<Bref>, n: nat, res: bool, r: bool, a: Log, b: Log)
    requires n < |base| && ScannedTo(f, a, s, base, n, res) && Onward(a, b)
    requires Matches(f, s.rest, base[n]) ==> EntryHandled(f, b, s, base[n])
    requires base[n].Indirect? && Located(f, base[n]) ==> (s.path, base[n].dataOff) in b.seenBlock
    requires r && !base[n].Empty? ==> Located(f, base[n])
    ensures ScannedTo(f, b, s, base, n + 1, res && r)
  {
    FollowedStays(f, s, base, n, a, b);
    hide EntryHandled, Matches, Located;
  }

  lemma ScannedAll(f: Found, log: Log, s: Spot, base: seq<Bref>, res: bool)
    requires ScannedTo(f, log, s, base, |base|, res)
    ensures Followed(f, log, s, base, |base|) && ListingDone(f, log, Listing(s, base))
  {
    hide Followed, Located;
  }

  lemma GrowsSelf(f: Found, base: seq<Bref>, from: Spot, isafile: bool, a: Log)
    ensures Grows(f, base, from, isafile, a, a)
  {}

  lemma Appended(f: Found, a: Log, b: Log, c: Log)
    requires Extends(a, b) && Extends(b, c)
    requires PathsOf(b.written[|a.written|..]) == Outputs(f, b.visits[|a.visits|..])
    requires PathsOf(c.written[|b.written|..]) == Outputs(f, c.visits[|b.visits|..])
    ensures Extends(a, c) && PathsOf(c.written[|a.written|..]) == Outputs(f, c.visits[|a.visits|..])
  {
    hide PathsOf, Outputs;
    assert c.written[|a.written|..] == b.written[|a.written|..] + c.written[|b.written|..];
    assert c.visits[|a.visits|..] == b.visits[|a.visits|..] + c.visits[|b.visits|..];
    OutputsSplit(f, b.visits[|a.visits|..], c.visits[|b.visits|..]);
    PathsSplit(b.written[|a.written|..], c.written[|b.written|..]);
  }

  lemma GrowsTwice(f: Found, base: seq<Bref>, from: Spot, isafile: bool, a: Log, b: Log, c: Log)
    requires Grows(f, base, from, isafile, a, b) && Grows(f, base, from, isafile, b, c)
    ensures Grows(f, base, from, isafile, a, c)
  {
    hide PathsOf, Outputs, VisitDone, ListingDone, MeetingDone, Below;
    Appended(f, a, b, c);
    StaysDone(f, isafile, b, c);
    forall k {:trigger c.visits[k]} | |a.visits| <= k < |c.visits|
      ensures VisitDone(f, c, isafile, c.visits[k]) && Below(f, base, from, c.visits[k])
    {
      assert k < |b.visits| ==> c.visits[k] == b.visits[k];
    }
    forall k {:trigger c.listings[k]} | |a.listings| <= k < |c.listings| ensures ListingDone(f, c, c.listings[k]) {
      assert k < |b.listings| ==> c.listings[k] == b.listings[k];
    }
    forall k {:trigger c.meetings[k]} | |a.meetings| <= k < |c.meetings| ensures MeetingDone(f, c, c.meetings[k]) {
      assert k < |b.meetings| ==> c.meetings[k] == b.meetings[k];
    }
  }

  /** From another beginning: whatever was below the one is below the other. */
  lemma GrowsFrom(f: Found, base: seq<Bref>, base': seq<Bref>, from: Spot, isafile: bool, a: Log, b: Log)
    requires Grows(f, base, from, isafile, a, b)
    requires forall e {:trigger Inside(f, base', e)} :: Inside(f, base, e) ==> Inside(f, base', e)
    ensures Grows(f, base', from, isafile, a, b)
  {
    hide PathsOf, Outputs, VisitDone, ListingDone, MeetingDone, Inside;
    forall k {:trigger b.visits[k]} | |a.visits| <= k < |b.visits| ensures Below(f, base', from, b.visits[k]) {
      assert Below(f, base, from, b.visits[k]);
      var hops: seq<Hop> :| hops != [] && Leads(f, base, from, b.visits[k], hops);
      assert Inside(f, base', hops[0].entry);
      assert Leads(f, base', from, b.visits[k], hops);
    }
  }

  /** A reference of a directory, and what its indirect block holds. */
  lemma OneInside(f: Found, base: seq<Bref>, b: Bref)
    requires b in base
    ensures forall e {:trigger Inside(f, base, e)} :: Inside(f, [b], e) ==> Inside(f, base, e)
  {
    forall e {:trigger Inside(f, base, e)} | Inside(f, [b], e) ensures Inside(f, base, e) {
      var n: nat :| Within(f, [b], e, n);
      assert Within(f, base, e, n);
    }
  }

  lemma BlockInside(f: Found, b: Bref)
    requires Opens(f, b)
    ensures forall e {:trigger Inside(f, [b], e)} :: Inside(f, f.blocks[(b.dataOff, b.check)], e) ==> Inside(f, [b], e)
  {
    forall e {:trigger Inside(f, [b], e)} | Inside(f, f.blocks[(b.dataOff, b.check)], e) ensures Inside(f, [b], e) {
      var n: nat :| Within(f, f.blocks[(b.dataOff, b.check)], e, n);
      assert b in [b] && OpensTo(f, b, e, n);
      assert Within(f, [b], e, n + 1);
    }
  }

  /** The spot of a copy of an entry's inode. */
  function Under(from: Spot, h: Hop): Spot
    requires h.entry.Dirent? && Component(from.rest) <= from.rest
  {
    Spot(from.path + "/" + h.entry.name, Strip(from.rest[|Component(from.rest)|..]), from.depth + 1, from.marks + {h.inode})
  }

  /** A chain from an entry on, with that entry in front. */
  lemma Lengthened(f: Found, base: seq<Bref>, from: Spot, h: Hop, v: Visit)
    requires Strip(from.rest) == from.rest && Component(from.rest) <= from.rest && HopOk(f, h) && Inside(f, base, h.entry)
    requires Component(from.rest) == [] || h.entry.name == Component(from.rest)
    requires FromInode(f, h.inode, Under(from, h), v)
    ensures Below(f, base, from, v)
  {
    KindOf(f, h);
    hide Inside, Component, Strip, HopOk;
    var u := Under(from, h);
    NextComponent(from.rest);
    StripTwice(from.rest[|Component(from.rest)|..]);
    var c := Components(from.rest);
    assert Components(u.rest) == Rest(c, 1);
    var tail: seq<Hop> := [];
    if v != Visit(u, h.inode) {
      assert Below(f, f.inodes[h.inode].blockset, u, v);
      tail :| tail != [] && Leads(f, f.inodes[h.inode].blockset, u, v, tail);
    }
    var hops := [h] + tail;
    assert hops[1..] == tail;
    assert Chain(f, base, c, hops);
    assert Rest(Rest(c, 1), |tail|) == Rest(c, |hops|);
    assert InodesOf(hops) == {h.inode} + InodesOf(tail);
    assert from.marks + ({h.inode} + InodesOf(tail)) == (from.marks + {h.inode}) + InodesOf(tail);
    forall k | 0 <= k < |hops| ensures hops[k].entry.Dirent? {
      assert k > 0 ==> hops[k] == tail[k - 1];
    }
    assert v.spot.path == Joined(from.path, hops);
    assert v.spot.depth == from.depth + |hops|;
    assert v.inode == hops[|hops| - 1].inode;
    assert Leads(f, base, from, v, hops);
  }

  lemma KindOf(f: Found, h: Hop)
    requires HopOk(f, h)
    ensures h.entry.Dirent? && h.inode < |f.inodes| && h.entry.kind == f.inodes[h.inode].kind
  {}

  /** The walk of a copy of an entry's inode, seen from the directory. */
  lemma GrowsUnder(f: Found, base: seq<Bref>, from: Spot, h: Hop, isafile: bool, a: Log, b: Log)
    requires Strip(from.rest) == from.rest && Component(from.rest) <= from.rest && HopOk(f, h) && Inside(f, base, h.entry)
    requires Component(from.rest) == [] || h.entry.name == Component(from.rest)
    requires GrowsTree(f, h.inode, Under(from, h), isafile, a, b)
    ensures Grows(f, base, from, isafile, a, b)
  {
    hide PathsOf, Outputs, VisitDone, ListingDone, MeetingDone, Inside, HopOk, FromInode, Below, Under, Strip, Component;
    forall k {:trigger b.visits[k]} | |a.visits| <= k < |b.visits| ensures Below(f, base, from, b.visits[k]) {
      Lengthened(f, base, from, h, b.visits[k]);
    }
  }

  /** A directory that was scanned, and an indirect block that was. */
  lemma VisitScanned(f: Found, i: nat, from: Spot, isafile: bool, a: Log, b: Log)
    requires i < |f.inodes| && a.listings + [Listing(from, f.inodes[i].blockset)] <= b.listings
    ensures VisitDone(f, b, isafile, Visit(from, i))
  {
    assert b.listings[|a.listings|] == Listing(from, f.inodes[i].blockset);
  }

  lemma MeetingScanned(f: Found, m: Meeting, a: Log, b: Log)
    requires (m.off, m.check) in f.blocks ==> a.listings + [Listing(m.spot, f.blocks[(m.off, m.check)])] <= b.listings
    ensures MeetingDone(f, b, m)
  {
    if (m.off, m.check) in f.blocks {
      assert b.listings[|a.listings|] == Listing(m.spot, f.blocks[(m.off, m.check)]);
    }
  }

  /** The walk of a copy of an entry's inode, from that entry on. */
  lemma GrowsEntry(f: Found, from: Spot, b: Bref, i: nat, isafile: bool, a: Log, log: Log)
    requires Strip(from.rest) == from.rest && Component(from.rest) <= from.rest && Matches(f, from.rest, b)
    requires i < |f.inodes| && f.inodes[i].inum == b.inum && f.inodes[i].kind == b.kind
    requires GrowsTree(f, i, Spot(from.path + "/" + b.name, Strip(from.rest[|Component(from.rest)|..]), from.depth + 1,
                                  from.marks + {i}), isafile, a, log)
    ensures Grows(f, [b], from, isafile, a, log)
  {
    hide GrowsTree, Grows, Strip, Component;
    assert Within(f, [b], b, 0) by { assert b in [b]; }
    GrowsUnder(f, [b], from, Hop(b, i), isafile, a, log);
  }

  /** A directory is scanned: its listing comes first. */
  lemma GrowsListing(f: Found, l: Listing, isafile: bool, a: Log, a1: Log, b: Log)
    requires a1 == a.(listings := a.listings + [l]) && Grows(f, l.base, l.spot, isafile, a1, b) && ListingDone(f, b, l)
    ensures Grows(f, l.base, l.spot, isafile, a, b) && a.listings + [l] <= b.listings
  {
    hide PathsOf, Outputs, VisitDone, ListingDone, MeetingDone, Below;
    assert b.listings[|a.listings|] == a1.listings[|a.listings|] == l;
  }

  /** An indirect block is met: its meeting comes first. */
  lemma GrowsMeeting(f: Found, base: seq<Bref>, m: Meeting, isafile: bool, a: Log, a1: Log, b: Log)
    requires a1 == a.(meetings := a.meetings + [m], seenBlock := a1.seenBlock) && a.seenBlock <= a1.seenBlock
    requires Grows(f, base, m.spot, isafile, a1, b) && MeetingDone(f, b, m)
    ensures Grows(f, base, m.spot, isafile, a, b)
  {
    hide PathsOf, Outputs, VisitDone, ListingDone, MeetingDone, Below;
    assert b.meetings[|a.meetings|] == a1.meetings[|a.meetings|] == m;
  }

  /** An inode is processed: its visit comes first. */
  ghost predicate Visited(a: Log, a1: Log, v: Visit) {
    && a1 == a.(processed := a1.processed, visits := a.visits + [v], seenInode := a1.seenInode, encountered := a1.encountered)
    && a.processed <= a1.processed && a.seenInode <= a1.seenInode && a.encountered <= a1.encountered
  }

  lemma VisitedMarked(a: Log, a1: Log, v: Visit, b: Log)
    requires Visited(a, a1, v) && b == a1.(encountered := b.encountered) && a1.encountered <= b.encountered
    ensures Visited(a, b, v)
  {}

  lemma OutputOne(f: Found, v: Visit)
    ensures Outputs(f, [v]) == if IsOutput(f, v) then [v.spot.path] else []
  {
    assert [v][..0] == [];
  }

  lemma TreeFromDirectory(f: Found, i: nat, from: Spot, isafile: bool, a: Log, a1: Log, b: Log)
    requires i < |f.inodes| && f.inodes[i].kind.Directory? && Visited(a, a1, Visit(from, i))
    requires Grows(f, f.inodes[i].blockset, from, isafile, a1, b) && VisitDone(f, b, isafile, Visit(from, i))
    ensures GrowsTree(f, i, from, isafile, a, b) && a.visits + [Visit(from, i)] <= b.visits
  {
    hide PathsOf, Outputs, VisitDone, ListingDone, MeetingDone, Below;
    var v := Visit(from, i);
    OutputOne(f, v);
    PathsNone(a1.written[|a.written|..]);
    assert a1.visits[|a.visits|..] == [v];
    Appended(f, a, a1, b);
    assert b.visits[|a.visits|] == a1.visits[|a.visits|] == v;
  }

  lemma PathsNone(w: seq<(Path, nat)>)
    ensures |w| == 0 ==> PathsOf(w) == []
  {}

  /** What is no directory, and a directory where the path to a file is used up. */
  lemma TreeFromLeaf(f: Found, i: nat, from: Spot, isafile: bool, a: Log, a1: Log, b: Log)
    requires i < |f.inodes| && Visited(a, a1, Visit(from, i)) && b == a1.(written := b.written, encountered := b.encountered)
    requires a1.encountered <= b.encountered && (f.inodes[i].kind.Directory? ==> isafile && from.rest == [])
    requires if f.inodes[i].kind in {File, Softlink} && from.rest == []
             then |b.written| == |a1.written| + 1 && a1.written <= b.written && b.written[|a1.written|].0 == from.path
             else b.written == a1.written
    ensures GrowsTree(f, i, from, isafile, a, b) && a.visits + [Visit(from, i)] <= b.visits
  {
    var v := Visit(from, i);
    OutputOne(f, v);
    assert b.visits[|a.visits|..] == [v];
    assert b.visits[|a.visits|] == v;
    assert PathsOf(b.written[|a.written|..]) == Outputs(f, [v]);
  }

  lemma TreeOnward(f: Found, i: nat, from: Spot, isafile: bool, a: Log, b: Log)
    requires i < |f.inodes| && GrowsTree(f, i, from, isafile, a, b)
    ensures Onward(a, b)
  {}

  lemma TreeSelf(f: Found, i: nat, from: Spot, isafile: bool, a: Log)
    requires i < |f.inodes|
    ensures GrowsTree(f, i, from, isafile, a, a)
  {}

  // ---------------------------------------------------------------- a whole walk

  const NOTHING := Log([], [], [], [], [], {}, {}, {})

  lemma {:induction false} InOutputs(f: Found, visits: seq<Visit>, p: Path)
    ensures p in Outputs(f, visits) <==>
      exists v {:trigger v in visits} :: v in visits && IsOutput(f, v) && v.spot.path == p
    decreases |visits|
  {
    if visits != [] {
      var l, v := visits[..|visits| - 1], visits[|visits| - 1];
      assert visits == l + [v];
      InOutputs(f, l, p);
      hide IsOutput;
      assert Outputs(f, visits) == Outputs(f, l) + if IsOutput(f, v) then [v.spot.path] else [];
      var last := if IsOutput(f, v) then [v.spot.path] else [];
      assert p in Outputs(f, visits) <==> p in Outputs(f, l) || p in last;
      if p in Outputs(f, l) {
        var u :| u in l && IsOutput(f, u) && u.spot.path == p;
        assert u in visits;
      } else if p in last {
        assert v in visits;
      }
    }
  }

  /** What is processed is at the end of a chain of entries that match the path as far as both go. */
  lemma EveryVisit(f: Found, i: nat, from: Spot, isafile: bool, b: Log, v: Visit)
    requires i < |f.inodes| && GrowsTree(f, i, from, isafile, NOTHING, b) && v in b.visits
    ensures exists hops :: Leads(f, f.inodes[i].blockset, from, v, hops) && (hops == [] ==> v.inode == i)
    ensures v.inode < |f.inodes|
  {
    var k :| 0 <= k < |b.visits| && b.visits[k] == v;
    if v == Visit(from, i) {
      assert Leads(f, f.inodes[i].blockset, from, v, []) by { LeadsNowhere(f, f.inodes[i].blockset, from, i); }
    } else {
      assert Below(f, f.inodes[i].blockset, from, v);
      var hops: seq<Hop> :| hops != [] && Leads(f, f.inodes[i].blockset, from, v, hops);
    }
  }

  lemma LeadsNowhere(f: Found, base: seq<Bref>, from: Spot, i: nat)
    ensures Leads(f, base, from, Visit(from, i), [])
  {}

  /** The files written are those that were processed where the path is used up. */
  lemma EveryFile(f: Found, i: nat, from: Spot, isafile: bool, b: Log, p: Path)
    requires i < |f.inodes| && GrowsTree(f, i, from, isafile, NOTHING, b)
    ensures p in PathsOf(b.written) <==>
      exists v {:trigger v in b.visits} :: v in b.visits && IsOutput(f, v) && v.spot.path == p
  {
    assert b.written[0..] == b.written && b.visits[0..] == b.visits;
    InOutputs(f, b.visits, p);
  }

  /** Of a directory that was processed, each entry that matches the next component was followed to
      every copy of its inode that the walk was not inside of, unless it cannot be read any more or
      the walk is deep and it was encountered before. */
  lemma EveryEntry(f: Found, i: nat, from: Spot, isafile: bool, b: Log, v: Visit, e: Bref, j: nat)
    requires i < |f.inodes| && GrowsTree(f, i, from, isafile, NOTHING, b) && v in b.visits && v.inode < |f.inodes|
    requires f.inodes[v.inode].kind.Directory? && (!isafile || v.spot.rest != [])
    requires e in f.inodes[v.inode].blockset && Matches(f, v.spot.rest, e)
    requires j < |f.inodes| && f.inodes[j].inum == e.inum && f.inodes[j].kind == e.kind && j !in v.spot.marks
    requires f.inodes[j].intact && (v.spot.depth < REPINODEDEPTH || j !in b.encountered)
    ensures (v.spot.path + "/" + e.name, j) in b.seenInode
  {
    var k :| 0 <= k < |b.visits| && b.visits[k] == v;
    var l := Listing(v.spot, f.inodes[v.inode].blockset);
    assert VisitDone(f, b, isafile, v);
    var m :| 0 <= m < |b.listings| && b.listings[m] == l;
    assert ListingDone(f, b, l);
    var n :| 0 <= n < |l.base| && l.base[n] == e;
    assert EntryHandled(f, b, v.spot, l.base[n]);
    assert f.inodes[j] == f.inodes[j];
    assert Handled(f, b, v.spot.path + "/" + e.name, j, v.spot.depth + 1);
  }
}
