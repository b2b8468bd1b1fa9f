/** The run mask of a XOP: one bit for the frontend, one for each of up to 8 workers, two
    flags, and a counter of feed events in the upper half, all in one 64 bit word that is
    changed by fetch-and-add. */
module XopMask {
  /** An actor is a worker, 0 to 7, or the frontend, 8. */
  type Actor = a: int | 0 <= a < 9

  /** The fields of the word. */
  datatype Run = Run(feeds: nat, vop: bool, fifow: bool, wait: bool, nodes: seq<bool>)

  predicate RunOk(r: Run) { r.feeds < 0x1_0000_0000 && |r.nodes| == 8 }

  function One(b: bool): nat { if b then 1 else 0 }

  /** Bits 0 to 7 are the workers ... */
  function Nodes(n: seq<bool>): (v: nat)
    requires |n| == 8
    ensures v < 0x100
  {
    One(n[0]) + 2 * One(n[1]) + 4 * One(n[2]) + 8 * One(n[3]) + 16 * One(n[4]) + 32 * One(n[5]) + 64 * One(n[6]) + 128 * One(n[7])
  }

  /** ... and 29 to 31 WAIT, FIFOW and VOP ... */
  function Low(r: Run): (v: nat)
    requires RunOk(r)
    ensures v < 0x1_0000_0000
  {
    Nodes(r.nodes) + 0x2000_0000 * One(r.wait) + 0x4000_0000 * One(r.fifow) + 0x8000_0000 * One(r.vop)
  }

  /** ... and the counter starts at bit 32. */
  function Value(r: Run): (v: nat)
    requires RunOk(r)
    ensures v < 0x1_0000_0000_0000_0000
  {
    Low(r) + 0x1_0000_0000 * r.feeds
  }

  function Bit(a: Actor): nat {
    match a
    case 0 => 1
    case 1 => 2
    case 2 => 4
    case 3 => 8
    case 4 => 16
    case 5 => 32
    case 6 => 64
    case 7 => 128
    case _ => 0x8000_0000
  }

  predicate Has(r: Run, a: Actor)
    requires RunOk(r)
  {
    if a == 8 then r.vop else r.nodes[a]
  }

  function Fed(r: Run): (r': Run)
    requires RunOk(r)
    ensures RunOk(r')
  {
    r.(feeds := if r.feeds == 0xFFFF_FFFF then 0 else r.feeds + 1)
  }

  function Cleared(r: Run, a: Actor): (r': Run)
    requires RunOk(r)
    ensures RunOk(r')
  {
    if a == 8 then r.(vop := false) else r.(nodes := r.nodes[a := false])
  }

  lemma Wraps(low: nat, feeds: nat)
    requires low < 0x1_0000_0000 && feeds < 0x1_0000_0000
    ensures (low + 0x1_0000_0000 * feeds + 0x1_0000_0000) % 0x1_0000_0000_0000_0000
      == low + if feeds == 0xFFFF_FFFF then 0 else 0x1_0000_0000 * (feeds + 1)
  {}

  /** Adding FEED to the word counts a feed; when the counter wraps, no bit below notices. */
  lemma FeedAdds(r: Run)
    requires RunOk(r)
    ensures Value(Fed(r)) == (Value(r) + 0x1_0000_0000) % 0x1_0000_0000_0000_0000
    ensures forall a: Actor {:trigger Has(r, a)} {:trigger Has(Fed(r), a)} :: Has(Fed(r), a) == Has(r, a)
  {
    hide Nodes;
    Wraps(Low(r), r.feeds);
  }

  lemma NodesClear(n: seq<bool>, a: nat)
    requires |n| == 8 && a < 8 && n[a]
    ensures Nodes(n[a := false]) == Nodes(n) - Bit(a)
  {
    BitSum(a);
    ghost var m := n[a := false];
    forall i: nat | i < 8 ensures One(n[i]) == One(m[i]) + One(i == a) {}
    hide One, Bit;
  }

  lemma BitSum(a: nat)
    requires a < 8
    ensures Bit(a) == One(0 == a) + 2 * One(1 == a) + 4 * One(2 == a) + 8 * One(3 == a) + 16 * One(4 == a)
      + 32 * One(5 == a) + 64 * One(6 == a) + 128 * One(7 == a)
  {}

  lemma LowClear(r: Run, a: Actor)
    requires RunOk(r) && Has(r, a)
    ensures Low(Cleared(r, a)) == Low(r) - Bit(a)
  {
    hide Nodes;
    if a < 8 {
      NodesClear(r.nodes, a);
    }
  }

  /** Subtracting the actor's bit and adding FEED clears that bit, and no borrow disturbs
      another one. */
  lemma RetireAdds(r: Run, a: Actor)
    requires RunOk(r) && Has(r, a)
    ensures Value(Fed(Cleared(r, a))) == (Value(r) - Bit(a) + 0x1_0000_0000) % 0x1_0000_0000_0000_0000
    ensures forall b: Actor {:trigger Has(r, b)} {:trigger Has(Fed(Cleared(r, a)), b)} ::
      Has(Fed(Cleared(r, a)), b) == (b != a && Has(r, b))
  {
    hide Low, Bit;
    LowClear(r, a);
    FeedAdds(Cleared(r, a));
  }

  /** The word with all but the bits of the actors masked out. */
  function AllDone(v: nat): nat { v / 0x8000_0000 % 2 * 0x8000_0000 + v % 0x100 }

  lemma Masked(low: nat, flags: nat, vop: nat, feeds: nat)
    requires low < 0x100 && flags < 4 && vop < 2
    ensures AllDone(low + 0x2000_0000 * flags + 0x8000_0000 * vop + 0x1_0000_0000 * feeds) == low + 0x8000_0000 * vop
  {
    var v := low + 0x2000_0000 * flags + 0x8000_0000 * vop + 0x1_0000_0000 * feeds;
    LowByte(v, low, 0x20_0000 * flags + 0x80_0000 * vop + 0x100_0000 * feeds);
    TopBit(v, low + 0x2000_0000 * flags, vop, feeds);
  }

  lemma LowByte(v: nat, low: nat, rest: nat)
    requires low < 0x100 && v == low + 0x100 * rest
    ensures v % 0x100 == low
  {}

  lemma TopBit(v: nat, low: nat, vop: nat, feeds: nat)
    requires low < 0x8000_0000 && vop < 2 && v == low + 0x8000_0000 * (vop + 2 * feeds)
    ensures v / 0x8000_0000 % 2 == vop
  {
    assert v / 0x8000_0000 == vop + 2 * feeds;
  }

  lemma AllDoneValue(r: Run)
    requires RunOk(r)
    ensures AllDone(Value(r)) == Nodes(r.nodes) + 0x8000_0000 * One(r.vop)
  {
    hide Nodes, AllDone;
    Masked(Nodes(r.nodes), One(r.wait) + 2 * One(r.fifow), One(r.vop), r.feeds);
  }

  /** What a retiring actor sees before its own subtraction: its bit is the only one left
      exactly if no other actor holds the XOP. */
  lemma LastHolder(r: Run, a: Actor)
    requires RunOk(r) && Has(r, a)
    ensures AllDone(Value(r)) == Bit(a) <==> forall b: Actor {:trigger Has(r, b)} :: b != a ==> !Has(r, b)
  {
    hide AllDone, Value, Low;
    AllDoneValue(r);
    if forall b: Actor {:trigger Has(r, b)} :: b != a ==> !Has(r, b) {
      assert Has(r, 0) == (a == 0) && Has(r, 1) == (a == 1) && Has(r, 2) == (a == 2) && Has(r, 3) == (a == 3);
      assert Has(r, 4) == (a == 4) && Has(r, 5) == (a == 5) && Has(r, 6) == (a == 6) && Has(r, 7) == (a == 7) && Has(r, 8) == (a == 8);
    }
  }
}
