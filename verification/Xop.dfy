/** A XOP shared by its frontend and up to 8 workers, every atomic operation one step of an
    interleaving. */
module Xop {
  import opened XopMask
  import opened XopFifo

  /** What an actor does next. */
  datatype Pc<T> =
    | Idle                  // a worker that this XOP was not queued to
    | Fresh                 // the frontend, before it starts the XOP
    | Queued                // on the worker's queue
    | Busy                  // in its storage function, or collecting
    | Feeding(result: Slot<T>)  // has seen that the frontend is still there
    | Fed                   // has put a result into its FIFO
    | Waking                // has seen that the frontend waits
    | Leaving               // off the worker's queue
    | Checked(seen: nat)    // the frontend has read the run mask
    | Gone                  // retired
    | Last                  // retired as the last one
    | Destroyed             // has freed the XOP

  /** The results of one node: its FIFO, the one being collected (if any), and the history. */
  datatype Node<T> = Node(fifo: Fifo<T>, item: seq<Slot<T>>, fed: seq<Slot<T>>, passed: seq<Slot<T>>)

  datatype Xop<T> = Xop(run: Run, chk: seq<bool>, nodes: seq<Node<T>>, pcs: seq<Pc<T>>, freed: bool)

  /** One step of one actor. */
  datatype Step<T> =
    | Start(to: seq<bool>)
    | Take(w: nat)
    | Test(w: nat, result: Slot<T>)
    | Grow(w: nat)
    | Push(w: nat)
    | Count(w: nat)
    | Wake(w: nat)
    | Dequeue(w: nat)
    | Look
    | Advance(i: nat)
    | Sleep
    | Retire(a: Actor)
    | Destroy(a: Actor)

  datatype Outcome<T> = Next(x: Xop<T>) | Fault

  const FRONT: Actor := 8

  function SetPc<T>(x: Xop<T>, a: Actor, pc: Pc<T>): Xop<T>
    requires |x.pcs| == 9
  {
    x.(pcs := x.pcs[a := pc])
  }

  predicate Shape<T>(x: Xop<T>) {
    && RunOk(x.run) && |x.chk| == 8 && |x.nodes| == 8 && |x.pcs| == 9
    && forall i :: 0 <= i < 8 ==> FifoOk(x.nodes[i].fifo)
  }

  /** The XOP was queued to this node alone: the size of the FIFOs is that of all nodes. */
  predicate Alone<T>(x: Xop<T>, w: nat)
    requires Shape(x)
  {
    forall i :: 0 <= i < 8 && i != w ==> !x.chk[i]
  }

  /** Whether the actor is at the point in its program where it takes the step; a step of an
      actor that is elsewhere does nothing. */
  predicate Enabled<T>(x: Xop<T>, s: Step<T>)
    requires Shape(x)
  {
    match s
    case Start(to) => x.pcs[FRONT].Fresh? && |to| == 8
    case Take(w) => w < 8 && x.pcs[w].Queued?
    case Test(w, _) => w < 8 && x.pcs[w].Busy?
    case Grow(w) => w < 8 && x.pcs[w].Feeding? && Full(x.nodes[w].fifo) && x.run.vop && Alone(x, w)
    case Push(w) => w < 8 && x.pcs[w].Feeding? && (!Full(x.nodes[w].fifo) || !x.run.vop)
    case Count(w) => w < 8 && x.pcs[w].Fed?
    case Wake(w) => w < 8 && x.pcs[w].Waking?
    case Dequeue(w) => w < 8 && x.pcs[w].Busy?
    case Look => x.pcs[FRONT].Busy?
    case Advance(i) => i < 8 && (x.pcs[FRONT].Busy? || x.pcs[FRONT].Checked?)
    case Sleep => x.pcs[FRONT].Checked?
    case Retire(a) => if a == FRONT then x.pcs[a].Busy? || x.pcs[a].Fresh? else x.pcs[a].Leaving?
    case Destroy(a) => x.pcs[a].Last?
  }

  /** Queueing: the bits of the chosen nodes are set before any of their workers can run. */
  function Started<T>(x: Xop<T>, to: seq<bool>): Xop<T>
    requires Shape(x) && |to| == 8
  {
    x.(run := x.run.(nodes := seq(8, i requires 0 <= i < 8 => x.run.nodes[i] || to[i])),
       chk := seq(8, i requires 0 <= i < 8 => x.chk[i] || to[i]),
       pcs := seq(9, a requires 0 <= a < 9 => if a == 8 then Busy else if to[a] then Queued else x.pcs[a]))
  }

  /** The collector passes the current result of a node and takes its next one, if it is there. */
  function Advanced<T>(n: Node<T>): Node<T>
    requires FifoOk(n.fifo)
  {
    if n.fifo.ri < n.fifo.wi
    then n.(passed := n.passed + n.item, item := [First(n.fifo)], fifo := Rest(n.fifo))
    else n.(passed := n.passed + n.item, item := [])
  }

  /** Cleaning up drops the current result and, for the nodes that the XOP was queued to,
      everything in the FIFO. */
  function Emptied<T>(n: Node<T>, queued: bool): Node<T>
    requires FifoOk(n.fifo)
  {
    if queued then n.(passed := n.passed + n.item + Contents(n.fifo), item := [], fifo := n.fifo.(ri := n.fifo.wi))
    else n.(passed := n.passed + n.item, item := [])
  }

  function Do<T>(x: Xop<T>, s: Step<T>): (r: Outcome<T>)
    requires Shape(x) && Enabled(x, s)
  {
    if x.freed then Fault  // every step touches the XOP
    else
      match s
      case Start(to) => Next(Started(x, to))
      case Take(w) => Next(SetPc(x, w, Busy))
      case Test(w, result) => Next(if x.run.vop then SetPc(x, w, Feeding(result)) else x)
      case Grow(w) => Next(x.(nodes := x.nodes[w := x.nodes[w].(fifo := Grown(x.nodes[w].fifo))]))
      case Push(w) =>
        var n, result := x.nodes[w], x.pcs[w].result;
        if Full(n.fifo) then Next(SetPc(x, w, Busy))
          else Next(SetPc(x.(nodes := x.nodes[w := n.(fifo := Put(n.fifo, result), fed := n.fed + [result])]), w, Fed))
      case Count(w) => Next(SetPc(x.(run := XopMask.Fed(x.run)), w, if x.run.wait then Waking else Busy))
      case Wake(w) => Next(SetPc(x.(run := x.run.(wait := false)), w, Busy))
      case Dequeue(w) => Next(SetPc(x, w, Leaving))
      case Look => Next(SetPc(x, FRONT, Checked(Value(x.run))))
      case Advance(i) => Next(x.(nodes := x.nodes[i := Advanced(x.nodes[i])]))
      case Sleep => Next(SetPc(if Value(x.run) == x.pcs[FRONT].seen then x.(run := x.run.(wait := true)) else x, FRONT, Busy))
      case Retire(a) =>
        if !Has(x.run, a) then Fault
        else Next(SetPc(x.(run := XopMask.Fed(Cleared(x.run, a))), a, if AllDone(Value(x.run)) == Bit(a) then Last else Gone))
      case Destroy(a) =>
        Next(SetPc(x.(nodes := seq(8, i requires 0 <= i < 8 => Emptied(x.nodes[i], x.chk[i])), freed := true), a, Destroyed))
  }

  // ---------------------------------------------------------------- lifetime

  /** The actor is attached to the XOP. */
  predicate Holding<T>(a: Actor, pc: Pc<T>) {
    if a == FRONT then pc.Fresh? || pc.Busy? || pc.Checked?
    else pc.Queued? || pc.Busy? || pc.Feeding? || pc.Fed? || pc.Waking? || pc.Leaving?
  }

  predicate Ending<T>(pc: Pc<T>) { pc.Last? || pc.Destroyed? }

  predicate Known<T>(a: Actor, pc: Pc<T>) { Holding(a, pc) || Ending(pc) || pc.Gone? || (a != FRONT && pc.Idle?) }

  /** Each attached actor has its bit, and no other one; once none is attached, exactly one of
      them has been told to free the XOP. */
  ghost predicate Lifetime<T>(x: Xop<T>) {
    && Shape(x)
    && (forall a: Actor {:trigger x.pcs[a]} :: Known(a, x.pcs[a]) && (Has(x.run, a) <==> Holding(a, x.pcs[a])))
    && (forall a: Actor, b: Actor {:trigger x.pcs[a], x.pcs[b]} ::
      Ending(x.pcs[a]) && b != a ==> !Ending(x.pcs[b]) && !Holding(b, x.pcs[b]))
    && ((exists a: Actor {:trigger x.pcs[a]} :: Holding(a, x.pcs[a])) || exists a: Actor {:trigger x.pcs[a]} :: Ending(x.pcs[a]))
    && (x.freed <==> exists a: Actor {:trigger x.pcs[a]} :: x.pcs[a].Destroyed?)
    && (x.pcs[FRONT].Fresh? ==> forall w: Actor {:trigger x.pcs[w]} :: w != FRONT ==> x.pcs[w].Idle?)
  }

  /** Every result that was fed has been passed, is being collected, or waits, in this order;
      a node that the XOP was not queued to has fed none. */
  ghost predicate Accounted<T>(x: Xop<T>) {
    && Shape(x)
    && forall i {:trigger x.nodes[i]} :: 0 <= i < 8 ==>
      && x.nodes[i].fed == x.nodes[i].passed + x.nodes[i].item + Contents(x.nodes[i].fifo)
      && (!x.chk[i] ==> x.nodes[i].fifo.ri == x.nodes[i].fifo.wi)
      && (!x.pcs[i].Idle? ==> x.chk[i])
      && (x.freed ==> x.nodes[i].fed == x.nodes[i].passed)
  }

  ghost predicate Inv<T>(x: Xop<T>) { Lifetime(x) && Accounted(x) }

  /** A step that moves one attached actor within its program. */
  lemma Moves<T>(x: Xop<T>, y: Xop<T>, a: Actor)
    requires Lifetime(x) && Holding(a, x.pcs[a]) && Shape(y) && y.freed == x.freed
    requires y.pcs == x.pcs[a := y.pcs[a]] && Holding(a, y.pcs[a]) && !y.pcs[a].Fresh?
    requires forall b: Actor {:trigger Has(y.run, b)} :: Has(y.run, b) == Has(x.run, b)
    ensures Lifetime(y) && !x.freed
  {
    assert Holding(a, y.pcs[a]);
    forall b: Actor {:trigger y.pcs[b]} ensures Known(b, y.pcs[b]) && (Has(y.run, b) <==> Holding(b, y.pcs[b])) {
      assert Known(b, x.pcs[b]);
    }
    forall b: Actor {:trigger y.pcs[b]} ensures !y.pcs[b].Destroyed? && !Ending(y.pcs[b]) {
      assert Known(b, x.pcs[b]);
    }
  }

  /** Retiring: the actor is told to free the XOP exactly if nobody else is attached. */
  lemma RetireStep<T>(x: Xop<T>, a: Actor)
    requires Lifetime(x) && Enabled(x, Retire(a))
    ensures Do(x, Retire(a)).Next? && Lifetime(Do(x, Retire(a)).x)
    ensures Do(x, Retire(a)).x.pcs[a].Last? <==> forall b: Actor {:trigger x.pcs[b]} :: b != a ==> !Holding(b, x.pcs[b])
  {
    hide Value, AllDone, Bit;
    var y := SetPc(x.(run := XopMask.Fed(Cleared(x.run, a))), a, if AllDone(Value(x.run)) == Bit(a) then Last else Gone);
    assert Holding(a, x.pcs[a]) && Has(x.run, a);
    assert !x.freed;
    LastHolder(x.run, a);
    RetireAdds(x.run, a);
    forall b: Actor {:trigger y.pcs[b]} ensures Known(b, y.pcs[b]) && (Has(y.run, b) <==> Holding(b, y.pcs[b])) {
      assert Known(b, x.pcs[b]);
    }
    if y.pcs[a].Gone? {
      var b: Actor :| b != a && Has(x.run, b);
      assert Holding(b, y.pcs[b]);
    } else {
      assert Ending(y.pcs[a]);
    }
  }

  lemma StartStep<T>(x: Xop<T>, to: seq<bool>)
    requires Lifetime(x) && Enabled(x, Start(to))
    ensures !x.freed && Lifetime(Started(x, to))
  {
    var y := Started(x, to);
    assert Holding(FRONT, x.pcs[FRONT]) && Holding(FRONT, y.pcs[FRONT]);
    forall b: Actor {:trigger y.pcs[b]} ensures Known(b, y.pcs[b]) && (Has(y.run, b) <==> Holding(b, y.pcs[b])) && !Ending(y.pcs[b]) {
      assert Known(b, x.pcs[b]);
    }
  }

  lemma DestroyStep<T>(x: Xop<T>, a: Actor)
    requires Lifetime(x) && Enabled(x, Destroy(a))
    ensures Do(x, Destroy(a)).Next? && Lifetime(Do(x, Destroy(a)).x)
  {
    assert Ending(x.pcs[a]);
    assert !x.freed;
    var y := Do(x, Destroy(a)).x;
    forall i | 0 <= i < 8 ensures FifoOk(y.nodes[i].fifo) {}
    assert Ending(y.pcs[a]);
    forall b: Actor {:trigger y.pcs[b]} ensures Known(b, y.pcs[b]) && (Has(y.run, b) <==> Holding(b, y.pcs[b])) {
      assert Known(b, x.pcs[b]);
    }
  }

  /** In every interleaving: a step of an actor finds the XOP alive, and its bit in the mask. */
  lemma LifetimeStep<T>(x: Xop<T>, s: Step<T>)
    requires Lifetime(x) && Enabled(x, s)
    ensures Do(x, s).Next? && Lifetime(Do(x, s).x)
  {
    hide Lifetime, Has, Value, AllDone, Bit;
    Shaped(x);
    match s
    case Start(to) => StartStep(x, to);
    case Retire(a) => RetireStep(x, a);
    case Destroy(a) => DestroyStep(x, a);
    case Take(w) => Moves(x, SetPc(x, w, Busy), w);
    case Test(w, result) => Moves(x, if x.run.vop then SetPc(x, w, Feeding(result)) else SetPc(x, w, Busy), w); Same(x, w);
    case Grow(w) => GrowStep(x, w);
    case Push(w) => PushStep(x, w);
    case Count(w) => FeedAdds(x.run); Moves(x, SetPc(x.(run := XopMask.Fed(x.run)), w, if x.run.wait then Waking else Busy), w);
    case Wake(w) => WaitKeeps(x.run, false); Moves(x, SetPc(x.(run := x.run.(wait := false)), w, Busy), w);
    case Dequeue(w) => Moves(x, SetPc(x, w, Leaving), w);
    case Look => Moves(x, SetPc(x, FRONT, Checked(Value(x.run))), FRONT);
    case Advance(i) => AdvanceStep(x, i);
    case Sleep => WaitKeeps(x.run, true);
      Moves(x, SetPc(if Value(x.run) == x.pcs[FRONT].seen then x.(run := x.run.(wait := true)) else x, FRONT, Busy), FRONT);
  }

  lemma Shaped<T>(x: Xop<T>)
    requires Lifetime(x)
    ensures Shape(x)
  {}

  lemma Same<T>(x: Xop<T>, w: nat)
    requires w < 8 && Shape(x) && x.pcs[w].Busy?
    ensures SetPc(x, w, Busy) == x
  {
    assert x.pcs[w := x.pcs[w]] == x.pcs;
  }

  /** The WAIT flag is no actor's bit. */
  lemma WaitKeeps(r: Run, wait: bool)
    requires RunOk(r)
    ensures forall b: Actor {:trigger Has(r.(wait := wait), b)} :: Has(r.(wait := wait), b) == Has(r, b)
  {}

  lemma GrowStep<T>(x: Xop<T>, w: nat)
    requires Lifetime(x) && Enabled(x, Grow(w))
    ensures Do(x, Grow(w)).Next? && Lifetime(Do(x, Grow(w)).x)
  {
    var y := x.(nodes := x.nodes[w := x.nodes[w].(fifo := Grown(x.nodes[w].fifo))]);
    assert y.pcs[w := y.pcs[w]] == x.pcs;
    Moves(x, y, w);
  }

  lemma PushStep<T>(x: Xop<T>, w: nat)
    requires Lifetime(x) && Enabled(x, Push(w))
    ensures Do(x, Push(w)).Next? && Lifetime(Do(x, Push(w)).x)
  {
    hide Lifetime, Has;
    Shaped(x);
    var n, result := x.nodes[w], x.pcs[w].result;
    if Full(n.fifo) {
      Moves(x, SetPc(x, w, Busy), w);
    } else {
      PutContents(n.fifo, result);
      Moves(x, SetPc(x.(nodes := x.nodes[w := n.(fifo := Put(n.fifo, result), fed := n.fed + [result])]), w, Pc.Fed), w);
    }
  }

  lemma AdvanceStep<T>(x: Xop<T>, i: nat)
    requires Lifetime(x) && Enabled(x, Advance(i))
    ensures Do(x, Advance(i)).Next? && Lifetime(Do(x, Advance(i)).x)
  {
    var y := x.(nodes := x.nodes[i := Advanced(x.nodes[i])]);
    assert y.pcs[FRONT := y.pcs[FRONT]] == x.pcs;
    Moves(x, y, FRONT);
  }

  // ---------------------------------------------------------------- conservation

  ghost predicate Balanced<T>(n: Node<T>, queued: bool, freed: bool) {
    && FifoOk(n.fifo) && n.fed == n.passed + n.item + Contents(n.fifo)
    && (!queued ==> n.fifo.ri == n.fifo.wi) && (freed ==> n.fed == n.passed)
  }

  lemma AdvanceBalanced<T>(n: Node<T>, queued: bool)
    requires Balanced(n, queued, false)
    ensures Balanced(Advanced(n), queued, false)
  {
    if n.fifo.ri < n.fifo.wi {
      TakeContents(n.fifo);
      var c := Contents(Rest(n.fifo));
      assert n.passed + n.item + ([First(n.fifo)] + c) == (n.passed + n.item) + [First(n.fifo)] + c;
    } else {
      assert n.passed + n.item + [] == (n.passed + n.item) + [] + [];
    }
  }

  lemma PutBalanced<T>(n: Node<T>, result: Slot<T>)
    requires Balanced(n, true, false) && !Full(n.fifo)
    ensures Balanced(n.(fifo := Put(n.fifo, result), fed := n.fed + [result]), true, false)
  {
    PutContents(n.fifo, result);
    assert n.passed + n.item + (Contents(n.fifo) + [result]) == (n.passed + n.item + Contents(n.fifo)) + [result];
  }

  lemma EmptyBalanced<T>(n: Node<T>, queued: bool)
    requires Balanced(n, queued, false)
    ensures Balanced(Emptied(n, queued), queued, true)
  {
    if queued {
      assert n.passed + n.item + Contents(n.fifo) + [] + [] == n.passed + n.item + Contents(n.fifo);
    } else {
      assert n.passed + n.item + [] == n.passed + n.item;
    }
  }

  ghost predicate BalancedAt<T>(x: Xop<T>, i: nat)
    requires Shape(x) && i < 8
  {
    Balanced(x.nodes[i], x.chk[i], x.freed) && (!x.pcs[i].Idle? ==> x.chk[i])
  }

  lemma GrownBalanced<T>(n: Node<T>, queued: bool)
    requires Balanced(n, queued, false) && FifoOk(Grown(n.fifo)) && Contents(Grown(n.fifo)) == Contents(n.fifo)
    ensures Balanced(n.(fifo := Grown(n.fifo)), queued, false)
  {}

  /** A FIFO grows when its read index is a multiple of the new size; 0 is one. */
  predicate Even<T>(x: Xop<T>, s: Step<T>)
    requires Shape(x) && Enabled(x, s)
  {
    s.Grow? ==> x.nodes[s.w].fifo.ri % (2 * |x.nodes[s.w].fifo.slots|) == 0
  }

  lemma NodeStep<T>(x: Xop<T>, s: Step<T>, i: nat)
    requires Shape(x) && Enabled(x, s) && Even(x, s) && !x.freed && i < 8 && BalancedAt(x, i)
    requires Do(x, s).Next? && Shape(Do(x, s).x)
    ensures BalancedAt(Do(x, s).x, i)
  {
    hide Has, Value, AllDone, Bit, Balanced;
    match s
    case Advance(j) => AdvanceBalanced(x.nodes[i], x.chk[i]);
    case Grow(w) => if i == w { GrowthEven(x.nodes[i].fifo); GrownBalanced(x.nodes[i], x.chk[i]); }
    case Push(w) => if i == w && !Full(x.nodes[i].fifo) { PutBalanced(x.nodes[i], x.pcs[i].result); }
    case Destroy(_) => EmptyBalanced(x.nodes[i], x.chk[i]);
    case Start(_) => QueueBalanced(x.nodes[i], x.chk[i]);
    case _ =>
  }

  lemma QueueBalanced<T>(n: Node<T>, queued: bool)
    ensures Balanced(n, queued, false) ==> Balanced(n, true, false)
  {}

  lemma AllBalanced<T>(x: Xop<T>)
    requires Shape(x) && forall i: nat {:trigger BalancedAt(x, i)} :: i < 8 ==> BalancedAt(x, i)
    ensures Accounted(x)
  {
    forall i {:trigger x.nodes[i]} | 0 <= i < 8
      ensures x.nodes[i].fed == x.nodes[i].passed + x.nodes[i].item + Contents(x.nodes[i].fifo)
      ensures !x.chk[i] ==> x.nodes[i].fifo.ri == x.nodes[i].fifo.wi
      ensures (!x.pcs[i].Idle? ==> x.chk[i]) && (x.freed ==> x.nodes[i].fed == x.nodes[i].passed)
    {
      assert BalancedAt(x, i);
    }
  }

  lemma BalancedNow<T>(x: Xop<T>, i: nat)
    requires Accounted(x) && !x.freed && i < 8
    ensures BalancedAt(x, i)
  {
    assert x.nodes[i].fed == x.nodes[i].passed + x.nodes[i].item + Contents(x.nodes[i].fifo);
  }

  lemma AccountedStep<T>(x: Xop<T>, s: Step<T>)
    requires Inv(x) && Enabled(x, s) && Even(x, s)
    ensures Accounted(Do(x, s).x)
  {
    LifetimeStep(x, s);
    Shaped(Do(x, s).x);
    Shaped(x);
    Alive(x, s);
    hide Lifetime, Do, Enabled, Accounted, Even, Balanced;
    var y := Do(x, s).x;
    forall i: nat {:trigger BalancedAt(y, i)} | i < 8 ensures BalancedAt(y, i) {
      BalancedNow(x, i);
      NodeStep(x, s, i);
    }
    AllBalanced(y);
  }

  lemma Alive<T>(x: Xop<T>, s: Step<T>)
    requires Shape(x) && Enabled(x, s) && Do(x, s).Next?
    ensures !x.freed
  {}

  /** Every step keeps the invariant; in particular, the XOP is not touched once it is freed,
      and an actor that retires has its bit. */
  lemma StepSafe<T>(x: Xop<T>, s: Step<T>)
    requires Inv(x) && Enabled(x, s) && Even(x, s)
    ensures Do(x, s).Next? && Inv(Do(x, s).x)
  {
    LifetimeStep(x, s);
    AccountedStep(x, s);
  }

  /** A FIFO of chains that grows at any other moment loses results: exactly then the books do
      not balance any more. */
  lemma GrowthBalances<T>(x: Xop<T>, w: nat)
    requires Inv(x) && Enabled(x, Grow(w)) && forall k :: 0 <= k < |x.nodes[w].fifo.slots| ==> x.nodes[w].fifo.slots[k].Some?
    ensures Do(x, Grow(w)).Next? && (Accounted(Do(x, Grow(w)).x) <==> Even(x, Grow(w)))
  {
    LifetimeStep(x, Grow(w));
    var n := x.nodes[w];
    GrowthKeeps(n.fifo);
    var before := n.passed + n.item;
    assert before + Contents(Grown(n.fifo)) == before + Contents(n.fifo) ==> Contents(Grown(n.fifo)) == Contents(n.fifo) by {
      Cancel(before, Contents(Grown(n.fifo)), Contents(n.fifo));
    }
    if Even(x, Grow(w)) {
      AccountedStep(x, Grow(w));
    } else {
      var y := Do(x, Grow(w)).x;
      assert y.nodes[w] == n.(fifo := Grown(n.fifo));
    }
  }

  lemma Cancel<S>(a: seq<S>, b: seq<S>, c: seq<S>)
    ensures a + b == a + c ==> b == c
  {
    if a + b == a + c {
      assert b == (a + b)[|a|..] && c == (a + c)[|a|..];
    }
  }

  // ---------------------------------------------------------------- runs

  /** A new XOP: the frontend is attached, the FIFOs are empty. */
  function Init<T>(size: nat): Xop<T>
    requires size > 0
  {
    var empty := Fifo(0, 0, seq(size, i => Null));
    Xop(Run(0, true, false, false, seq(8, i => false)), seq(8, i => false), seq(8, i => Node(empty, [], [], [])),
        seq(9, a => if a == 8 then Fresh else Idle), false)
  }

  lemma InitInv<T>(size: nat)
    requires size > 0
    ensures Inv(Init<T>(size))
  {
    var x := Init<T>(size);
    assert Holding(FRONT, x.pcs[FRONT]);
    forall i {:trigger x.nodes[i]} | 0 <= i < 8 ensures x.nodes[i].fed == x.nodes[i].passed + x.nodes[i].item + Contents(x.nodes[i].fifo) {}
  }

  /** An interleaving; a step of an actor that is elsewhere in its program is left out. */
  function Exec<T>(x: Xop<T>, steps: seq<Step<T>>): Outcome<T>
    requires Shape(x)
    decreases |steps|
  {
    if steps == [] then Next(x)
    else if !Enabled(x, steps[0]) then Exec(x, steps[1..])
    else
      match Do(x, steps[0])
      case Fault => Fault
      case Next(y) => if Shape(y) then Exec(y, steps[1..]) else Fault
  }

  /** FIFOs grow only when that loses nothing. */
  ghost predicate GrowsEven<T>(x: Xop<T>, steps: seq<Step<T>>)
    requires Shape(x)
    decreases |steps|
  {
    steps == [] ||
    if !Enabled(x, steps[0]) then GrowsEven(x, steps[1..])
    else Even(x, steps[0]) && (Do(x, steps[0]).Next? && Shape(Do(x, steps[0]).x) ==> GrowsEven(Do(x, steps[0]).x, steps[1..]))
  }

  /** Over every run, whenever FIFOs grow, the XOP is not touched once it is freed. */
  lemma {:induction false} RunLives<T>(x: Xop<T>, steps: seq<Step<T>>)
    requires Lifetime(x)
    ensures Exec(x, steps).Next? && Lifetime(Exec(x, steps).x)
    decreases |steps|
  {
    hide Lifetime, Do, Enabled;
    Shaped(x);
    if steps != [] {
      if Enabled(x, steps[0]) {
        LifetimeStep(x, steps[0]);
        Shaped(Do(x, steps[0]).x);
        RunLives(Do(x, steps[0]).x, steps[1..]);
      } else {
        RunLives(x, steps[1..]);
      }
    }
  }

  /** And if they grow only when that loses nothing, every result is accounted for. */
  lemma {:induction false} RunSafe<T>(x: Xop<T>, steps: seq<Step<T>>)
    requires Inv(x) && GrowsEven(x, steps)
    ensures Exec(x, steps).Next? && Inv(Exec(x, steps).x)
    decreases |steps|
  {
    hide Inv, Do, Enabled, Even;
    Fit(x);
    if steps != [] {
      if Enabled(x, steps[0]) {
        StepSafe(x, steps[0]);
        Fit(Do(x, steps[0]).x);
        RunSafe(Do(x, steps[0]).x, steps[1..]);
      } else {
        RunSafe(x, steps[1..]);
      }
    }
  }

  lemma Fit<T>(x: Xop<T>)
    requires Inv(x)
    ensures Shape(x)
  {}

  /** Once every actor has finished, exactly one has freed the XOP, and every result that was
      fed has been passed to the collector or dropped at the end, exactly once, in order. */
  lemma AllFinished<T>(x: Xop<T>)
    requires Inv(x) && forall a: Actor {:trigger x.pcs[a]} :: !Holding(a, x.pcs[a]) && !x.pcs[a].Last?
    ensures x.freed && exists a: Actor {:trigger x.pcs[a]} ::
      x.pcs[a].Destroyed? && forall b: Actor {:trigger x.pcs[b]} :: b != a ==> !x.pcs[b].Destroyed?
    ensures forall i {:trigger x.nodes[i]} :: 0 <= i < 8 ==> x.nodes[i].passed == x.nodes[i].fed
  {
    var a: Actor :| Ending(x.pcs[a]);
    assert x.pcs[a].Destroyed?;
  }
}
