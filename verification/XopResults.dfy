/** What becomes of the results of one worker, told by the steps of a run alone: which results it
    offered and found room for, which the collector then held, and which were dropped at the end. */
module XopResults {
  import opened XopFifo
  import opened Xop

  /** The result of the worker's last passed test, the results that it then found room for, those
      that the collector came to hold, and those that were dropped when the XOP was freed. */
  datatype History<T> = History(last: Slot<T>, fed: seq<Slot<T>>, seen: seq<Slot<T>>, dropped: seq<Slot<T>>)

  /** Fewer results wait than there are slots. */
  predicate HasRoom<T>(f: Fifo<T>) { f.wi - f.ri < |f.slots| }

  /** What a step from `x` adds. */
  ghost function Noted<T>(x: Xop<T>, s: Step<T>, y: Xop<T>, i: nat, h: History<T>): History<T>
    requires Shape(x) && Shape(y) && i < 8
  {
    match s
    case Test(w, result) => if w == i && x.run.vop then h.(last := result) else h
    case Push(w) => if w == i && HasRoom(x.nodes[i].fifo) then h.(fed := h.fed + [h.last]) else h
    case Advance(j) => if j == i then h.(seen := h.seen + y.nodes[i].item) else h
    case Destroy(_) => h.(dropped := h.dropped + Contents(x.nodes[i].fifo))
    case _ => h
  }

  /** What a run adds. */
  ghost function Told<T>(x: Xop<T>, steps: seq<Step<T>>, i: nat, h: History<T>): History<T>
    requires Shape(x) && i < 8
    decreases |steps|
  {
    if steps == [] then h
    else if !Enabled(x, steps[0]) then Told(x, steps[1..], i, h)
    else
      match Do(x, steps[0])
      case Fault => h
      case Next(y) => if Shape(y) then Told(y, steps[1..], i, Noted(x, steps[0], y, i, h)) else h
  }

  /** What was found room for was collected, was dropped, or waits, in this order. */
  ghost predicate Kept<T>(x: Xop<T>, i: nat, h: History<T>)
    requires Shape(x) && i < 8
  {
    && h.fed == x.nodes[i].fed && h.seen + h.dropped == x.nodes[i].passed + x.nodes[i].item
    && (x.pcs[i].Feeding? ==> x.pcs[i].result == h.last)
    && (!x.freed ==> h.dropped == [])
  }

  /** While the frontend is there, a worker goes on to feed exactly the result that it has, and
      otherwise nothing. */
  lemma TestDecides<T>(x: Xop<T>, w: nat, result: Slot<T>)
    requires Lifetime(x) && Enabled(x, Test(w, result))
    ensures Do(x, Test(w, result)).Next?
    ensures Do(x, Test(w, result)).x == if x.run.vop then x.(pcs := x.pcs[w := Feeding(result)]) else x
  {
    LifetimeStep(x, Test(w, result));
  }

  lemma KeptStep<T>(x: Xop<T>, s: Step<T>, y: Xop<T>, i: nat, h: History<T>)
    requires Inv(x) && Enabled(x, s) && Do(x, s) == Next(y) && Shape(y) && i < 8 && Kept(x, i, h)
    ensures Kept(y, i, Noted(x, s, y, i, h))
  {
    Fit(x);
    Alive(x, s);
    BalancedNow(x, i);
    hide Lifetime, Accounted, Inv;
    var n := x.nodes[i];
    match s
    case Advance(j) =>
      if j == i {
        ConcatAssoc(h.seen, y.nodes[i].item, h.dropped);
        assert h.seen + [] == h.seen;
      }
    case Destroy(_) =>
      EmptyContents(n);
      ConcatAssoc(h.seen, h.dropped, Contents(n.fifo));
    case _ =>
  }

  lemma EmptyContents<T>(n: Node<T>)
    requires FifoOk(n.fifo)
    ensures n.fifo.ri == n.fifo.wi ==> Contents(n.fifo) == []
    ensures forall x: seq<Slot<T>> :: x + [] == x
  {}

  lemma ConcatAssoc<S>(a: seq<S>, b: seq<S>, c: seq<S>)
    ensures (a + b) + c == a + (b + c)
  {}

  lemma {:induction false} RunKept<T>(x: Xop<T>, steps: seq<Step<T>>, i: nat, h: History<T>)
    requires Inv(x) && GrowsEven(x, steps) && i < 8 && Kept(x, i, h)
    ensures Exec(x, steps).Next? && Inv(Exec(x, steps).x) && Kept(Exec(x, steps).x, i, Told(x, steps, i, h))
    decreases |steps|
  {
    hide Inv, Do, Enabled, Even, Kept, Noted;
    Fit(x);
    if steps != [] {
      if Enabled(x, steps[0]) {
        StepSafe(x, steps[0]);
        var y := Do(x, steps[0]).x;
        Fit(y);
        KeptStep(x, steps[0], y, i, h);
        RunKept(y, steps[1..], i, Noted(x, steps[0], y, i, h));
      } else {
        RunKept(x, steps[1..], i, h);
      }
    }
  }

  /** Over every run from the start in which FIFOs grow only when that loses nothing: the results
      with which a worker passed the test and then found room are, in this order, those that the
      collector came to hold, those dropped when the XOP was freed, and those that still wait;
      none is dropped before, and none waits afterwards. */
  lemma RunResults<T>(size: nat, steps: seq<Step<T>>, i: nat)
    requires size > 0 && i < 8 && GrowsEven(Init(size), steps)
    ensures Exec(Init(size), steps).Next? && Shape(Exec(Init(size), steps).x)
    ensures var h, y := Told(Init(size), steps, i, History(Null, [], [], [])), Exec(Init(size), steps).x;
      h.fed == h.seen + h.dropped + Contents(y.nodes[i].fifo)
    ensures var h, y := Told(Init(size), steps, i, History(Null, [], [], [])), Exec(Init(size), steps).x;
      if y.freed then Contents(y.nodes[i].fifo) == [] else h.dropped == []
    ensures var h, y := Told(Init(size), steps, i, History(Null, [], [], [])), Exec(Init(size), steps).x;
      h.fed == y.nodes[i].passed + y.nodes[i].item + Contents(y.nodes[i].fifo)
  {
    InitInv<T>(size);
    RunKept(Init(size), steps, i, History(Null, [], [], []));
    var y := Exec(Init(size), steps).x;
    Settled(y, i);
  }

  lemma Settled<T>(x: Xop<T>, i: nat)
    requires Inv(x) && i < 8
    ensures x.nodes[i].fed == x.nodes[i].passed + x.nodes[i].item + Contents(x.nodes[i].fifo)
    ensures x.freed ==> Contents(x.nodes[i].fifo) == []
  {
    var n := x.nodes[i];
    if x.freed {
      assert |n.passed| == |n.passed + n.item + Contents(n.fifo)|;
    }
  }
}
