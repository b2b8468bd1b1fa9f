/** References are safe: whatever messages arrive, a state holds at least one reference for
    every way to reach it, so no operation frees a state that something still points at. */
module References {
  import opened Endpoint

  /** How many queued messages, and how many messages in processing, hold state `t`. */
  function Queued(q: seq<Msg>, t: Name): nat {
    if q == [] then 0 else Queued(q[..|q| - 1], t) + if q[|q| - 1].ref == t then 1 else 0
  }

  function Current(q: seq<Name>, t: Name): nat {
    if q == [] then 0 else Current(q[..|q| - 1], t) + if q[|q| - 1] == t then 1 else 0
  }

  lemma QueuedAppend(q: seq<Msg>, m: Msg, t: Name)
    ensures Queued(q + [m], t) == Queued(q, t) + if m.ref == t then 1 else 0
  {
    assert (q + [m])[..|q|] == q;
  }

  lemma CurrentAppend(q: seq<Name>, m: Name, t: Name)
    ensures Current(q + [m], t) == Current(q, t) + if m == t then 1 else 0
  {
    assert (q + [m])[..|q|] == q;
  }

  lemma {:induction false} QueuedFirst(q: seq<Msg>, t: Name)
    requires q != []
    ensures Queued(q, t) == Queued(q[1..], t) + if q[0].ref == t then 1 else 0
  {
    if |q| > 1 {
      QueuedFirst(q[..|q| - 1], t);
      assert q[1..][..|q| - 2] == q[..|q| - 1][1..];
    }
  }

  lemma {:induction false} CurrentFirst(q: seq<Name>, t: Name)
    requires q != []
    ensures Current(q, t) == Current(q[1..], t) + if q[0] == t then 1 else 0
  {
    if |q| > 1 {
      CurrentFirst(q[..|q| - 1], t);
      assert q[1..][..|q| - 2] == q[..|q| - 1][1..];
    }
  }

  function One(b: bool): nat { if b then 1 else 0 }

  /** Every way to reach state `t`: its tree, its parent's queue, queued messages, the message
      being processed, its own queue, a message that was allocated with it; and the root. */
  function Live(e: End, t: Name): (n: nat)
    requires t in e.states
  {
    var s := e.states[t];
    One(s.inTree) + One(s.inSubq) + One(s.subq != {}) + One(Unwritten(e, t)) + One(t.Root?)
      + Queued(e.txmsgq, t) + Current(e.cur, t)
  }

  /** Queues and trees point at existing states, and back. */
  ghost predicate Links(e: End) {
    && Root in e.states && !e.states[Root].inTree && !e.states[Root].inSubq
    && (forall t {:trigger e.states[t].inSubq} :: t in e.states && e.states[t].inSubq ==>
      t.parent in e.states && t in e.states[t.parent].subq)
    && (forall p, c {:trigger c in e.states[p].subq} :: p in e.states && c in e.states[p].subq ==>
      c in e.states && c.Name? && c.parent == p && e.states[c].inSubq)
  }

  ghost predicate Trees(e: End) {
    && (forall t {:trigger e.states[t].inTree} :: t in e.states && e.states[t].inTree ==>
      t.Name? && if t.side == e.me then t.id in e.statewr && e.statewr[t.id] == t else t.id in e.staterd && e.staterd[t.id] == t)
    && (forall id {:trigger e.statewr[id]} :: id in e.statewr ==> InTreeAs(e, e.statewr[id], e.me, id))
    && (forall id {:trigger e.staterd[id]} :: id in e.staterd ==> InTreeAs(e, e.staterd[id], Other(e.me), id))
  }

  ghost predicate InTreeAs(e: End, t: Name, side: Side, id: nat) {
    t in e.states && t.Name? && t.side == side && t.id == id && e.states[t].inTree
  }

  /** References that the code holds at the moment: `n` to `t` and `m` to `p`. */
  datatype Hand = Hand(t: Name, n: nat, p: Name, m: nat)

  function InHand(h: Hand, u: Name): nat {
    (if u == h.t then h.n else 0) + if u == h.p then h.m else 0
  }

  /** References are counted. */
  ghost predicate Counted(e: End, h: Hand) {
    && (forall u {:trigger e.states[u].refs} :: u in e.states ==> e.states[u].refs >= Live(e, u) + InHand(h, u))
    && (forall u {:trigger Queued(e.txmsgq, u)} :: Queued(e.txmsgq, u) > 0 ==> u in e.states)
    && (forall u {:trigger Current(e.cur, u)} :: Current(e.cur, u) > 0 ==> u in e.states)
    && (h.n > 0 ==> h.t in e.states) && (h.m > 0 ==> h.p in e.states)
  }

  ghost predicate RefOk(e: End, h: Hand) {
    Links(e) && Trees(e) && Counted(e, h)
  }

  /** Nothing but reference counts differ, and only states out of every structure are gone. */
  ghost predicate SameBits(e: End, e': End) {
    && e'.me == e.me && e'.statewr == e.statewr && e'.staterd == e.staterd && e'.txmsgq == e.txmsgq && e'.cur == e.cur
    && (forall t {:trigger t in e'.states} {:trigger e'.states[t]} :: t in e'.states ==>
      t in e.states && e'.states[t] == e.states[t].(refs := e'.states[t].refs))
    && (forall t {:trigger t in e.states} :: t in e.states && t !in e'.states ==>
      !e.states[t].inTree && !e.states[t].inSubq && t.Name? && e.states[t].subq == {})
  }

  lemma LinksSame(e: End, e': End)
    requires Links(e) && SameBits(e, e')
    ensures Links(e')
  {}

  lemma TreesSame(e: End, e': End)
    requires Trees(e) && SameBits(e, e')
    ensures Trees(e')
  {}

  lemma LiveSame(e: End, e': End, u: Name)
    requires SameBits(e, e') && u in e'.states
    ensures u in e.states && Live(e', u) == Live(e, u)
  {}

  /** The count only moves between the state and the hand. */
  lemma CountedStep(e: End, h: Hand, e': End, h': Hand)
    requires Counted(e, h) && SameBits(e, e')
    requires forall u {:trigger e'.states[u].refs} :: u in e'.states ==>
      e'.states[u].refs - InHand(h', u) >= e.states[u].refs - InHand(h, u)
    requires forall u {:trigger u in e.states} :: u in e.states && u !in e'.states ==> Live(e, u) == InHand(h', u) == 0
    requires forall u {:trigger InHand(h', u)} :: InHand(h', u) > 0 ==> InHand(h, u) > 0
    ensures Counted(e', h')
  {
    hide Queued, Current;
    forall u {:trigger e'.states[u].refs} | u in e'.states
      ensures e'.states[u].refs >= Live(e', u) + InHand(h', u)
    {
      LiveSame(e, e', u);
      hide Live, SameBits;
      assert e.states[u].refs >= Live(e, u) + InHand(h, u);
    }
    forall u {:trigger Queued(e'.txmsgq, u)} | Queued(e'.txmsgq, u) > 0 ensures u in e'.states {}
    forall u {:trigger Current(e'.cur, u)} | Current(e'.cur, u) > 0 ensures u in e'.states {}
    assert h'.n > 0 ==> InHand(h', h'.t) > 0;
    assert h'.m > 0 ==> InHand(h', h'.p) > 0;
  }

  lemma HoldCounted(e: End, h: Hand, t: Name)
    requires Counted(e, h) && t in e.states && h.t == t
    ensures Hold(e, t).Ok? && Counted(Hold(e, t).value, h.(n := h.n + 1)) && SameBits(e, Hold(e, t).value)
  {
    hide Queued, Current;
  }

  lemma HoldOk(e: End, h: Hand, t: Name)
    requires RefOk(e, h) && t in e.states && h.t == t
    ensures Hold(e, t).Ok? && RefOk(Hold(e, t).value, h.(n := h.n + 1)) && SameBits(e, Hold(e, t).value)
  {
    hide Links, Trees, Counted, Hold, SameBits;
    HoldCounted(e, h, t);
    LinksSame(e, Hold(e, t).value);
    TreesSame(e, Hold(e, t).value);
  }

  lemma DropCounted(e: End, h: Hand, t: Name)
    requires Counted(e, h) && h.t == t && h.n > 0
    ensures Drop(e, t).Ok? && Counted(Drop(e, t).value, h.(n := h.n - 1)) && SameBits(e, Drop(e, t).value)
    ensures t in Drop(e, t).value.states || (InHand(h, t) == 1 && Live(e, t) == 0)
  {
    hide Queued, Current, Live;
    assert t in e.states && e.states[t].refs >= Live(e, t) + InHand(h, t);
    if Live(e, t) == 0 {
      LiveZero(e, t);
    }
    var e' := Drop(e, t).value;
    CountedStep(e, h, e', h.(n := h.n - 1));
  }

  lemma LiveZero(e: End, t: Name)
    requires t in e.states && Live(e, t) == 0
    ensures !e.states[t].inTree && !e.states[t].inSubq && e.states[t].subq == {} && t.Name?
  {}

  /** A reference in hand may always be dropped. */
  lemma DropOk(e: End, h: Hand, t: Name)
    requires RefOk(e, h) && h.t == t && h.n > 0
    ensures Drop(e, t).Ok? && RefOk(Drop(e, t).value, h.(n := h.n - 1)) && SameBits(e, Drop(e, t).value)
    ensures t in Drop(e, t).value.states || (InHand(h, t) == 1 && Live(e, t) == 0)
  {
    hide Links, Trees, Counted, Drop, SameBits, Live;
    DropCounted(e, h, t);
    LinksSame(e, Drop(e, t).value);
    TreesSame(e, Drop(e, t).value);
  }

  /** One state changes, or the queues do, and the hand takes up the difference. */
  lemma CountedUpdate(e: End, h: Hand, e': End, h': Hand, t: Name)
    requires Counted(e, h) && t in e.states && e'.me == e.me && e'.txmsgq == e.txmsgq && e'.cur == e.cur
    requires t in e'.states && e'.states == e.states[t := e'.states[t]]
    requires e'.states[t].refs - Live(e', t) - InHand(h', t) >= e.states[t].refs - Live(e, t) - InHand(h, t)
    requires forall u {:trigger InHand(h', u)} :: u != t ==> InHand(h', u) <= InHand(h, u)
    ensures Counted(e', h')
  {
    hide Queued, Current;
    forall u {:trigger e'.states[u].refs} | u in e'.states
      ensures e'.states[u].refs >= Live(e', u) + InHand(h', u)
    {
      if u != t {
        assert e'.states[u] == e.states[u];
        assert Live(e', u) == Live(e, u);
        assert InHand(h', u) <= InHand(h, u);
      } else {
        assert e.states[u].refs >= Live(e, u) + InHand(h, u);
      }
    }
    assert h'.n > 0 ==> InHand(h', h'.t) > 0;
    assert h'.m > 0 ==> InHand(h', h'.p) > 0;
  }

  lemma LinksUpdate(e: End, e': End, t: Name)
    requires Links(e) && t in e.states && t in e'.states && e'.states == e.states[t := e'.states[t]]
    requires e'.states[t].inSubq == e.states[t].inSubq && e'.states[t].subq == e.states[t].subq
    requires e'.states[t].inTree ==> t.Name?
    ensures Links(e')
  {}

  lemma TreesUpdate(e: End, e': End, t: Name)
    requires Trees(e) && t in e.states && t in e'.states && e'.states == e.states[t := e'.states[t]]
    requires e'.me == e.me && e'.statewr == e.statewr && e'.staterd == e.staterd && e'.states[t].inTree == e.states[t].inTree
    ensures Trees(e')
  {}

  /** New command words; a message that was allocated with the state is now in hand. */
  lemma SetCmdOk(e: End, h: Hand, t: Name, tx: Cmd, rx: Cmd)
    requires RefOk(e, h) && t in e.states && h.t == t
    requires tx.create || tx == e.states[t].tx
    ensures RefOk(Set(e, t, e.states[t].(tx := tx, rx := rx)), h.(n := h.n + if tx.create then One(Unwritten(e, t)) else 0))
  {
    hide Queued, Current, Links, Trees, Counted;
    var e' := Set(e, t, e.states[t].(tx := tx, rx := rx));
    var h' := h.(n := h.n + if tx.create then One(Unwritten(e, t)) else 0);
    CountedUpdate(e, h, e', h', t);
    TreeNamed(e, t);
    LinksUpdate(e, e', t);
    TreesUpdate(e, e', t);
  }

  lemma TreeNamed(e: End, t: Name)
    requires Trees(e) && t in e.states
    ensures e.states[t].inTree ==> t.Name?
  {}

  // ---------------------------------------------------------------- structure

  /** Apart from state `t`, only sub-queues and reference counts differ, and only states that
      are in no tree and on no queue are gone. */
  ghost predicate Frame(e: End, e': End, t: Name) {
    && e'.me == e.me
    && (forall u {:trigger u in e'.states} {:trigger e'.states[u]} :: u in e'.states && u != t ==>
      u in e.states && e'.states[u].tx == e.states[u].tx && e'.states[u].rx == e.states[u].rx
      && e'.states[u].inTree == e.states[u].inTree && e'.states[u].inSubq == e.states[u].inSubq)
    && (forall u {:trigger u in e.states} :: u in e.states && u !in e'.states && u != t ==>
      !e.states[u].inTree && !e.states[u].inSubq)
  }

  lemma FrameSame(e: End, e': End, t: Name)
    requires SameBits(e, e')
    ensures Frame(e, e', t)
  {}

  lemma FrameTrans(e: End, e': End, e'': End, t: Name)
    requires Frame(e, e', t) && Frame(e', e'', t)
    ensures Frame(e, e'', t)
  {}

  lemma TreeRemoveOk(e: End, h: Hand, t: Name)
    requires RefOk(e, h) && t in e.states && t.Name? && e.states[t].inTree && h.t == t
    ensures var r := TreeRemove(e, t, t.side != e.me);
      && r.Ok? && RefOk(r.value, h.(n := h.n + 1)) && Frame(e, r.value, t) && r.value.txmsgq == e.txmsgq && r.value.cur == e.cur
      && t in r.value.states && r.value.states[t] == e.states[t].(inTree := false)
  {
    hide Queued, Current, Links, Trees, Counted;
    var e' := TreeRemove(e, t, t.side != e.me).value;
    CountedUpdate(e, h, e', h.(n := h.n + 1), t);
    LinksUpdate(e, e', t);
    TreesRemove(e, t);
  }

  lemma TreesRemove(e: End, t: Name)
    requires Trees(e) && t in e.states && t.Name? && e.states[t].inTree
    ensures Trees(TreeRemove(e, t, t.side != e.me).value)
  {
    var e' := TreeRemove(e, t, t.side != e.me).value;
    forall id {:trigger e'.statewr[id]} | id in e'.statewr ensures InTreeAs(e', e'.statewr[id], e.me, id) {
      assert InTreeAs(e, e.statewr[id], e.me, id);
    }
    forall id {:trigger e'.staterd[id]} | id in e'.staterd ensures InTreeAs(e', e'.staterd[id], Other(e.me), id) {
      assert InTreeAs(e, e.staterd[id], Other(e.me), id);
    }
  }

  /** Taking a state off its parent's queue gives its reference, and that of a queue that is
      now empty, to the hand. */
  function Unlink(e: End, t: Name): (e': End)
    requires t in e.states && t.Name? && t.parent in e.states
    ensures t in e'.states && t.parent in e'.states
  {
    var e1 := Set(e, t, e.states[t].(inSubq := false));
    Set(e1, t.parent, e1.states[t.parent].(subq := e.states[t.parent].subq - {t}))
  }

  lemma UnlinkOk(e: End, h: Hand, t: Name)
    requires RefOk(e, h) && t in e.states && t.Name? && e.states[t].inSubq && h.t == t && h.m == 0
    ensures t.parent in e.states
    ensures var e' := Unlink(e, t); RefOk(e', Hand(t, h.n + 1, t.parent, One(e'.states[t.parent].subq == {})))
  {
    var p := t.parent;
    assert p in e.states && t in e.states[p].subq;
    UnlinkCounted(e, h, t);
    UnlinkLinks(e, t);
    UnlinkTrees(e, t);
  }

  lemma UnlinkCounted(e: End, h: Hand, t: Name)
    requires Counted(e, h) && t in e.states && t.Name? && e.states[t].inSubq && h.t == t && h.m == 0
    requires t.parent in e.states && t in e.states[t.parent].subq
    ensures var e' := Unlink(e, t); Counted(e', Hand(t, h.n + 1, t.parent, One(e'.states[t.parent].subq == {})))
  {
    hide Queued, Current, Counted;
    var p := t.parent;
    var e1 := Set(e, t, e.states[t].(inSubq := false));
    CountedUpdate(e, h, e1, Hand(t, h.n + 1, p, 0), t);
    var e2 := Unlink(e, t);
    CountedUpdate(e1, Hand(t, h.n + 1, p, 0), e2, Hand(t, h.n + 1, p, One(e2.states[p].subq == {})), p);
  }

  lemma UnlinkLinks(e: End, t: Name)
    requires Links(e) && t in e.states && t.Name? && t.parent in e.states
    ensures Links(Unlink(e, t))
  {}

  lemma UnlinkTrees(e: End, t: Name)
    requires Trees(e) && t in e.states && t.Name? && t.parent in e.states
    ensures Trees(Unlink(e, t))
  {}

  lemma SwapHand(e: End, h: Hand)
    requires RefOk(e, h)
    ensures RefOk(e, Hand(h.p, h.m, h.t, h.n))
  {
    hide Queued, Current, Live, Links, Trees;
    assert forall u :: InHand(Hand(h.p, h.m, h.t, h.n), u) == InHand(h, u);
  }

  /** Forgetting references only leaks. */
  lemma Leak(e: End, h: Hand, n: nat, m: nat)
    requires RefOk(e, h) && n <= h.n && m <= h.m
    ensures RefOk(e, h.(n := n, m := m))
  {
    hide Queued, Current, Live, Links, Trees;
    assert forall u :: InHand(h.(n := n, m := m), u) <= InHand(h, u);
  }

  const NONE := Hand(Root, 0, Root, 0)

  lemma Empty(e: End, h: Hand, t: Name)
    requires RefOk(e, h) && h.n == 0 && h.m == 0
    ensures RefOk(e, Hand(t, 0, Root, 0)) && RefOk(e, NONE)
  {
    hide Queued, Current, Live, Links, Trees;
    assert forall u :: InHand(h, u) == InHand(Hand(t, 0, Root, 0), u) == InHand(NONE, u) == 0;
  }

  lemma SubqDeleteOk(e: End, h: Hand, t: Name)
    requires RefOk(e, h) && t in e.states && t.Name? && h.t == t && h.m == 0
    ensures var r := SubqDelete(e, t);
      && r.Ok? && RefOk(r.value, h) && Frame(e, r.value, t)
      && r.value.txmsgq == e.txmsgq && r.value.cur == e.cur && r.value.statewr == e.statewr && r.value.staterd == e.staterd
      && (t in r.value.states ==> SameCmds(r.value.states[t], e.states[t]) && !r.value.states[t].inSubq)
      && (h.n > 0 || e.states[t].inTree ==> t in r.value.states)
  {
    hide Queued, Current, Live, Links, Trees, Counted, Drop;
    if e.states[t].inSubq {
      UnlinkOk(e, h, t);
      var p := t.parent;
      var e2 := Unlink(e, t);
      var last := e2.states[p].subq == {};
      SwapHand(e2, Hand(t, h.n + 1, p, One(last)));
      var e3 := e2;
      if last {
        DropOk(e2, Hand(p, 1, t, h.n + 1), p);
        e3 := Drop(e2, p).value;
      }
      SwapHand(e3, Hand(p, 0, t, h.n + 1));
      DropOk(e3, Hand(t, h.n + 1, p, 0), t);
      var e4 := Drop(e3, t).value;
      SwapHand(e4, Hand(t, h.n, p, 0));
      HandAway(e4, h, p);
      Unlinked(e, t, e2, e3, e4, h.n);
    } else {
      FrameSame(e, e, t);
    }
  }

  predicate SameCmds(a: St, b: St) { a.tx == b.tx && a.rx == b.rx && a.inTree == b.inTree }

  lemma HandAway(e: End, h: Hand, p: Name)
    requires RefOk(e, Hand(h.t, h.n, p, 0)) && h.m == 0
    ensures RefOk(e, h)
  {
    hide Queued, Current, Live, Links, Trees;
    assert forall u :: InHand(Hand(h.t, h.n, p, 0), u) == InHand(h, u);
  }

  lemma Unlinked(e: End, t: Name, e2: End, e3: End, e4: End, n: nat)
    requires t in e.states && t.Name? && t.parent in e.states && e2 == Unlink(e, t)
    requires SameBits(e2, e3) && SameBits(e3, e4)
    ensures Frame(e, e4, t) && (t in e4.states ==> SameCmds(e4.states[t], e.states[t]) && !e4.states[t].inSubq)
    ensures e.states[t].inTree ==> t in e4.states
  {
    FrameSame(e2, e3, t);
    FrameSame(e3, e4, t);
    FrameTrans(e2, e3, e4, t);
    FrameTrans(e, e2, e4, t);
  }

  // ---------------------------------------------------------------- insertion and queues

  lemma Absent(e: End, h: Hand, t: Name)
    requires Counted(e, h) && t !in e.states
    ensures Queued(e.txmsgq, t) == 0 && Current(e.cur, t) == 0 && InHand(h, t) == 0
  {}

  /** What `Insert` makes of the states, once the parent is held if it has to be. */
  function Link(e: End, t: Name, s: St): (e': End)
    requires t.Name? && t.parent in e.states
    ensures t in e'.states && t.parent in e'.states
  {
    var e2 := Set(e, t.parent, e.states[t.parent].(subq := e.states[t.parent].subq + {t}));
    Set(e2, t, s.(inTree := true, inSubq := true, subq := {}, refs := 3))
  }

  lemma LinkCounted(e: End, t: Name, s: St)
    requires t.Name? && t !in e.states && t.parent in e.states
    requires Counted(e, Hand(t.parent, One(e.states[t.parent].subq == {}), Root, 0))
    ensures var e' := Link(e, t, s); Counted(e', Hand(t, 1 - One(Unwritten(e', t)), Root, 0))
  {
    hide Queued, Current;
    var p, h := t.parent, Hand(t.parent, One(e.states[t.parent].subq == {}), Root, 0);
    var e', h' := Link(e, t, s), Hand(t, 1 - One(Unwritten(Link(e, t, s), t)), Root, 0);
    Absent(e, h, t);
    forall u {:trigger e'.states[u].refs} | u in e'.states
      ensures e'.states[u].refs >= Live(e', u) + InHand(h', u)
    {
      if u != t {
        assert e.states[u].refs >= Live(e, u) + InHand(h, u);
        assert e'.states[u].refs == e.states[u].refs;
        LinkLive(e, t, s, u);
      }
    }
  }

  lemma LinkLive(e: End, t: Name, s: St, u: Name)
    requires t.Name? && t !in e.states && t.parent in e.states && u in e.states
    ensures Live(Link(e, t, s), u) == Live(e, u) + if u == t.parent then One(e.states[u].subq == {}) else 0
  {
    hide Queued, Current;
  }

  lemma LinkLinks(e: End, t: Name, s: St)
    requires Links(e) && t.Name? && t !in e.states && t.parent in e.states
    ensures Links(Link(e, t, s))
  {}

  /** The tree of a new state, with the state in it. */
  function Grow(e: End, t: Name): (e': End)
    requires t.Name?
    ensures e'.states == e.states
  {
    if t.side == e.me then e.(statewr := e.statewr[t.id := t]) else e.(staterd := e.staterd[t.id := t])
  }

  predicate IdFree(e: End, t: Name)
    requires t.Name?
  {
    if t.side == e.me then t.id !in e.statewr else t.id !in e.staterd
  }

  lemma LinkTrees(e: End, t: Name, s: St)
    requires Trees(e) && t.Name? && t !in e.states && t.parent in e.states && IdFree(e, t)
    ensures Trees(Grow(Link(e, t, s), t))
  {
    var e' := Grow(Link(e, t, s), t);
    forall id {:trigger e'.statewr[id]} | id in e'.statewr ensures InTreeAs(e', e'.statewr[id], e.me, id) {
      if id in e.statewr {
        assert InTreeAs(e, e.statewr[id], e.me, id);
      }
    }
    forall id {:trigger e'.staterd[id]} | id in e'.staterd ensures InTreeAs(e', e'.staterd[id], Other(e.me), id) {
      if id in e.staterd {
        assert InTreeAs(e, e.staterd[id], Other(e.me), id);
      }
    }
  }

  lemma GrowRef(e: End, t: Name, h: Hand)
    requires t.Name?
    ensures Links(e) ==> Links(Grow(e, t))
    ensures Counted(e, h) ==> Counted(Grow(e, t), h)
    ensures t in e.states ==> Unwritten(Grow(e, t), t) == Unwritten(e, t)
  {
    hide Queued, Current;
    var e' := Grow(e, t);
    assert forall u :: u in e.states ==> Live(e', u) == Live(e, u);
  }

  lemma HoldIfEmpty(e: End, p: Name)
    requires RefOk(e, NONE) && p in e.states
    ensures var r := if e.states[p].subq == {} then Hold(e, p) else Ok(e);
      r.Ok? && RefOk(r.value, Hand(p, One(e.states[p].subq == {}), Root, 0)) && SameBits(e, r.value) && p in r.value.states
  {
    hide Queued, Current, Live, Links, Trees, Counted;
    Empty(e, NONE, p);
    if e.states[p].subq == {} {
      HoldOk(e, Hand(p, 0, Root, 0), p);
    }
  }

  lemma InsertOk(e: End, t: Name, s: St)
    requires RefOk(e, NONE) && t.Name? && t !in e.states && t.parent in e.states && IdFree(e, t)
    ensures var r := Insert(e, t, s);
      && r.Ok? && Frame(e, r.value, t) && r.value.txmsgq == e.txmsgq && r.value.cur == e.cur
      && r.value.states[t] == s.(inTree := true, inSubq := true, subq := {}, refs := 3)
      && RefOk(r.value, Hand(t, 1 - One(Unwritten(r.value, t)), Root, 0))
  {
    hide Queued, Current, Live, Links, Trees, Counted;
    HoldIfEmpty(e, t.parent);
    var e1 := (if e.states[t.parent].subq == {} then Hold(e, t.parent) else Ok(e)).value;
    assert e1.states[t.parent].subq == e.states[t.parent].subq;
    assert t !in e1.states;
    LinkCounted(e1, t, s);
    LinkLinks(e1, t, s);
    LinkTrees(e1, t, s);
    GrowRef(Link(e1, t, s), t, Hand(t, 1 - One(Unwritten(Link(e1, t, s), t)), Root, 0));
    assert Insert(e, t, s) == Ok(Grow(Link(e1, t, s), t));
    LinkFrame(e, e1, t, s);
  }

  lemma LinkFrame(e: End, e1: End, t: Name, s: St)
    requires SameBits(e, e1) && t.Name? && t.parent in e1.states && t !in e.states
    ensures Frame(e, Grow(Link(e1, t, s), t), t)
  {}

  /** A queued message takes over a reference from the hand, and gives it back when sent. */
  lemma EnqueueOk(e: End, h: Hand, m: Msg)
    requires RefOk(e, h) && h.t == m.ref && h.n > 0
    ensures RefOk(e.(txmsgq := e.txmsgq + [m]), h.(n := h.n - 1))
  {
    var e', h' := e.(txmsgq := e.txmsgq + [m]), h.(n := h.n - 1);
    forall u ensures Queued(e'.txmsgq, u) == Queued(e.txmsgq, u) + if m.ref == u then 1 else 0 {
      QueuedAppend(e.txmsgq, m, u);
    }
    QueuesChange(e, h, e', h');
  }

  lemma DequeueOk(e: End, h: Hand)
    requires RefOk(e, h) && e.txmsgq != [] && h.n == h.m == 0
    ensures RefOk(e.(txmsgq := e.txmsgq[1..]), Hand(e.txmsgq[0].ref, 1, Root, 0))
  {
    var e', h' := e.(txmsgq := e.txmsgq[1..]), Hand(e.txmsgq[0].ref, 1, Root, 0);
    forall u ensures Queued(e.txmsgq, u) == Queued(e'.txmsgq, u) + if e.txmsgq[0].ref == u then 1 else 0 {
      QueuedFirst(e.txmsgq, u);
    }
    QueuesChange(e, h, e', h');
  }

  lemma StartOk(e: End, h: Hand, t: Name)
    requires RefOk(e, h) && h.t == t && h.n > 0
    ensures RefOk(e.(cur := e.cur + [t]), h.(n := h.n - 1))
  {
    var e', h' := e.(cur := e.cur + [t]), h.(n := h.n - 1);
    forall u ensures Current(e'.cur, u) == Current(e.cur, u) + if t == u then 1 else 0 {
      CurrentAppend(e.cur, t, u);
    }
    QueuesChange(e, h, e', h');
  }

  lemma FinishOk(e: End, h: Hand)
    requires RefOk(e, h) && e.cur != [] && h.n == h.m == 0
    ensures RefOk(e.(cur := e.cur[1..]), Hand(e.cur[0], 1, Root, 0))
  {
    var e', h' := e.(cur := e.cur[1..]), Hand(e.cur[0], 1, Root, 0);
    forall u ensures Current(e.cur, u) == Current(e'.cur, u) + if e.cur[0] == u then 1 else 0 {
      CurrentFirst(e.cur, u);
    }
    QueuesChange(e, h, e', h');
  }

  lemma QueuesChange(e: End, h: Hand, e': End, h': Hand)
    requires RefOk(e, h) && e' == e.(txmsgq := e'.txmsgq, cur := e'.cur)
    requires forall u {:trigger Queued(e'.txmsgq, u)} {:trigger Current(e'.cur, u)} {:trigger InHand(h', u)} ::
      Queued(e'.txmsgq, u) + Current(e'.cur, u) + InHand(h', u) == Queued(e.txmsgq, u) + Current(e.cur, u) + InHand(h, u)
    ensures RefOk(e', h')
  {
    hide Queued, Current;
    assert Links(e') && Trees(e') by {
      hide Counted;
    }
    forall u {:trigger Queued(e'.txmsgq, u)} | Queued(e'.txmsgq, u) > 0 ensures u in e'.states {}
    forall u {:trigger Current(e'.cur, u)} | Current(e'.cur, u) > 0 ensures u in e'.states {}
    assert InHand(h', h'.t) >= h'.n && InHand(h', h'.p) >= h'.m;
  }
}
