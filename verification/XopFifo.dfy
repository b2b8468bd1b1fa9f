/** The result FIFO of one cluster node: free running indices into a ring of slots. */
module XopFifo {
  /** What a node feeds: a chain, or NULL. */
  datatype Slot<T> = Null | Some(value: T)

  datatype Fifo<T> = Fifo(ri: nat, wi: nat, slots: seq<Slot<T>>)

  predicate FifoOk<T>(f: Fifo<T>) { f.ri <= f.wi <= f.ri + |f.slots| && |f.slots| > 0 }

  function Full<T>(f: Fifo<T>): bool { f.wi == f.ri + |f.slots| }

  /** What is in the ring, oldest first. */
  function Window<T>(slots: seq<Slot<T>>, ri: nat, wi: nat): (w: seq<Slot<T>>)
    requires ri <= wi && |slots| > 0
    ensures |w| == wi - ri
    decreases wi - ri
  {
    if ri == wi then [] else [slots[ri % |slots|]] + Window(slots, ri + 1, wi)
  }

  function Contents<T>(f: Fifo<T>): seq<Slot<T>>
    requires FifoOk(f)
  {
    Window(f.slots, f.ri, f.wi)
  }

  function Put<T>(f: Fifo<T>, s: Slot<T>): Fifo<T>
    requires FifoOk(f) && !Full(f)
  {
    f.(slots := f.slots[f.wi % |f.slots| := s], wi := f.wi + 1)
  }

  function First<T>(f: Fifo<T>): Slot<T>
    requires FifoOk(f) && f.ri < f.wi
  {
    f.slots[f.ri % |f.slots|]
  }

  function Rest<T>(f: Fifo<T>): Fifo<T> { f.(ri := f.ri + 1) }

  lemma {:induction false} WindowAt<T>(slots: seq<Slot<T>>, ri: nat, wi: nat, k: nat)
    requires ri <= k < wi && |slots| > 0
    ensures Window(slots, ri, wi)[k - ri] == slots[k % |slots|]
    decreases wi - ri
  {
    if k > ri {
      WindowAt(slots, ri + 1, wi, k);
    }
  }

  /** Different indices less than a ring apart use different slots. */
  lemma Apart(j: nat, k: nat, n: nat)
    requires j < k < j + n
    ensures j % n != k % n
  {
    if j % n == k % n {
      Divides(j, k, n);
    }
  }

  lemma Divides(j: nat, k: nat, n: nat)
    requires 0 < n && j < k && j % n == k % n
    ensures k - j >= n
  {
    assert j == n * (j / n) + j % n && k == n * (k / n) + k % n;
    assert k - j == n * (k / n - j / n) by { Distribute(n, k / n, j / n); }
    AtLeast(n, k / n - j / n);
  }

  lemma Distribute(n: int, a: int, b: int)
    ensures n * (a - b) == n * a - n * b
  {}

  lemma AtLeast(n: nat, q: int)
    requires n * q > 0
    ensures n * q >= n
  {}

  lemma {:induction false} WindowAppend<T>(slots: seq<Slot<T>>, ri: nat, wi: nat)
    requires ri <= wi && |slots| > 0
    ensures Window(slots, ri, wi + 1) == Window(slots, ri, wi) + [slots[wi % |slots|]]
    decreases wi - ri
  {
    if ri < wi {
      WindowAppend(slots, ri + 1, wi);
    } else {
      assert Window(slots, ri + 1, wi + 1) == [];
    }
  }

  lemma {:induction false} WindowSame<T>(slots: seq<Slot<T>>, slots': seq<Slot<T>>, ri: nat, wi: nat)
    requires ri <= wi && |slots| > 0 && |slots'| > 0
    requires forall k {:trigger slots'[k % |slots'|]} :: ri <= k < wi ==> slots'[k % |slots'|] == slots[k % |slots|]
    ensures Window(slots, ri, wi) == Window(slots', ri, wi)
    decreases wi - ri
  {
    if ri < wi {
      assert slots'[ri % |slots'|] == slots[ri % |slots|];
      WindowSame(slots, slots', ri + 1, wi);
    }
  }

  /** A result goes behind the others. */
  lemma PutContents<T>(f: Fifo<T>, s: Slot<T>)
    requires FifoOk(f) && !Full(f)
    ensures FifoOk(Put(f, s)) && Contents(Put(f, s)) == Contents(f) + [s]
  {
    var n, g := |f.slots|, Put(f, s);
    forall k {:trigger g.slots[k % n]} | f.ri <= k < f.wi ensures g.slots[k % n] == f.slots[k % n] {
      Apart(k, f.wi, n);
    }
    WindowSame(f.slots, g.slots, f.ri, f.wi);
    WindowAppend(g.slots, f.ri, f.wi);
  }

  lemma TakeContents<T>(f: Fifo<T>)
    requires FifoOk(f) && f.ri < f.wi
    ensures FifoOk(Rest(f)) && Contents(f) == [First(f)] + Contents(Rest(f))
  {}

  // ---------------------------------------------------------------- growth

  /** Growing copies the slots to the front of an array of twice the size; the indices stay. */
  function Grown<T>(f: Fifo<T>): Fifo<T> { f.(slots := f.slots + seq(|f.slots|, i => Null)) }

  /** Growing a FIFO whose read index is a multiple of the new size keeps what it holds. */
  lemma GrowthEven<T>(f: Fifo<T>)
    requires FifoOk(f) && f.ri % (2 * |f.slots|) == 0
    ensures FifoOk(Grown(f)) && Contents(Grown(f)) == Contents(f)
  {
    var n, g := |f.slots|, Grown(f);
    forall k {:trigger g.slots[k % |g.slots|]} | f.ri <= k < f.wi ensures g.slots[k % |g.slots|] == f.slots[k % n] {
      FromMultiple(f.ri, k - f.ri, n);
    }
    WindowSame(f.slots, g.slots, f.ri, f.wi);
  }

  /** Growing a full FIFO of chains keeps what it holds only then. */
  lemma GrowthKeeps<T>(f: Fifo<T>)
    requires FifoOk(f) && Full(f) && forall k :: 0 <= k < |f.slots| ==> f.slots[k].Some?
    ensures FifoOk(Grown(f)) && (Contents(Grown(f)) == Contents(f) <==> f.ri % (2 * |f.slots|) == 0)
  {
    var n, g := |f.slots|, Grown(f);
    if f.ri % (2 * n) == 0 {
      GrowthEven(f);
    } else {
      var k := UpperHalf(f.ri, n);
      WindowAt(g.slots, g.ri, g.wi, k);
      WindowAt(f.slots, f.ri, f.wi, k);
      assert g.slots[k % (2 * n)] == Null;
    }
  }

  /** A case: two results in a ring of two, the older one in the second slot. */
  lemma GrowthLoses<T>(a: T, b: T)
    ensures var f := Fifo(1, 3, [Slot.Some(b), Slot.Some(a)]);
      Contents(f) == [Slot.Some(a), Slot.Some(b)] && Contents(Grown(f)) == [Slot.Some(a), Null]
  {
    var f := Fifo(1, 3, [Slot.Some(b), Slot.Some(a)]);
    assert Window(f.slots, 3, 3) == [] && Window(Grown(f).slots, 3, 3) == [];
    assert Window(f.slots, 2, 3) == [f.slots[2 % 2]];
    assert Window(Grown(f).slots, 2, 3) == [Grown(f).slots[2 % 4]];
  }

  lemma FromMultiple(r: nat, i: nat, n: nat)
    requires n > 0 && r % (2 * n) == 0 && i < n
    ensures (r + i) % (2 * n) == i && (r + i) % n == i
  {
    var q := r / (2 * n);
    assert r == (2 * n) * q;
    Remainder(2 * n, q, i);
    Doubled(n, q);
    Remainder(n, 2 * q, i);
  }

  lemma Doubled(n: nat, q: nat)
    ensures (2 * n) * q == n * (2 * q)
  {}

  lemma Remainder(n: nat, q: nat, i: nat)
    requires i < n
    ensures (n * q + i) % n == i
  {
    var x := n * q + i;
    var q', r' := x / n, x % n;
    assert x == n * q' + r';
    if q' < q {
      Distribute(n, q, q');
      AtLeastOne(n, q - q');
    } else if q < q' {
      Distribute(n, q', q);
      AtLeastOne(n, q' - q);
    }
  }

  lemma AtLeastOne(n: nat, q: nat)
    requires q > 0
    ensures n * q >= n
  {}

  /** Of `n` successive indices that do not start at a multiple of `2n`, one falls into the
      new half of the array. */
  lemma UpperHalf(r: nat, n: nat) returns (k: nat)
    requires n > 0 && r % (2 * n) != 0
    ensures r <= k < r + n && n <= k % (2 * n) < 2 * n
  {
    var m, q := r % (2 * n), r / (2 * n);
    assert r == (2 * n) * q + m;
    if m >= n {
      k := r;
    } else {
      k := r + (n - m);
      assert k == (2 * n) * q + n;
      Remainder(2 * n, q, n);
    }
  }
}
