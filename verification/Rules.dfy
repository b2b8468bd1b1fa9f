/** The two rules of `Transactions` are exactly what keeps two endpoints safe: in every state that
    satisfies the invariant, a step that breaks one of them can be continued, by a run that keeps
    both, to a failed assertion or a message that is thrown away; and no other step can. */
module Rules {
  import opened Endpoint
  import opened References
  import opened Safety
  import opened Session
  import opened Transactions

  /** Some run that keeps the rules from here on fails an assertion or loses a message. */
  ghost predicate Harmed(y: System) {
    exists steps :: Orderly(y, steps) && match Exec(y, steps) case Failed => true case Ran(_, lost) => lost > 0
  }

  lemma HarmedBefore(y: System, step: Step)
    requires Disciplined(y, step) && (Next(y, step).Ok? ==> Harmed(Next(y, step).value))
    ensures Harmed(y)
  {
    if Next(y, step).Ok? {
      var y1 := Next(y, step).value;
      var steps :| Orderly(y1, steps) && match Exec(y1, steps) case Failed => true case Ran(_, lost) => lost > 0;
      var all := [step] + steps;
      assert all[1..] == steps;
      assert Orderly(y, all);
    } else {
      var all := [step];
      assert all[1..] == [];
      assert Orderly(y, all);
    }
  }

  ghost function Mine(y: System, s: Side): map<Name, Bits> { Alive(EndOf(y, s)) }

  // ---------------------------------------------------------------- what leads to harm

  /** `t` is closed in the transmit direction of `s`, or not announced yet, and `c`, which `s` opened
      under it, is open: `s` may still send on it, or the peer may. */
  ghost predicate Doom(y: System, x: set<Name>, s: Side, t: Name, c: Name) {
    && InvX(y, x) && t.Name? && c in x && (forall u {:trigger u in x} :: u in x ==> u.Name? && u.side == s && u.parent == t)
    && c in Mine(y, s) && DoomBits(Mine(y, s), Mine(y, Other(s)), Out(y, Other(s)), s, t, c)
  }

  ghost predicate DoomBits(m: map<Name, Bits>, p: map<Name, Bits>, o: seq<Msg>, s: Side, t: Name, c: Name)
    requires t.Name? && c in m
  {
    && (t in m ==> m[t].tx.del || (t.side == s && !m[t].tx.create && !m[c].tx.del))
    && (t.side != s ==> !Created(t, o) && (t in p ==> p[t].tx.create))
    && (!m[c].tx.del || (!m[c].rx.del && NoDel(c, o)) || Late(m, o, t, c))
  }

  /** The peer's DELETE on `c` is under way, but one on `t` is before it, or `t` is closed already. */
  ghost predicate Late(m: map<Name, Bits>, o: seq<Msg>, t: Name, c: Name) {
    exists i {:trigger o[i]} :: 0 <= i < |o| && IsDel(o[i], c) && (t !in m || !NoDel(t, o[..i]))
  }

  ghost predicate Still(y: System) { Out(y, A) == [] && Out(y, B) == [] }

  /** One message more is received by `s`. */
  lemma DoomRecv(d: Dir, e: Dir, t: Name, c: Name)
    requires Half(d) && Half(e) && Mirror(d, e) && d.back != [] && Half(AfterRecv(d)) &&
      t.Name? && c.Name? && c.side == d.s && c.parent == t
    requires c in d.mine && DoomBits(d.mine, d.theirs, d.back, d.s, t, c)
    requires d.back[0].ref == c ==> t in d.mine
    ensures c in AfterRecv(d).mine && DoomBits(AfterRecv(d).mine, d.theirs, d.back[1..], d.s, t, c)
  {
    var d1, m, o := AfterRecv(d), d.back[0], d.back[1..];
    if m.ref.Name? {
      NextMessage(d, e);
    }
    assert Agreed(d1, c);
    assert forall i {:trigger o[i]} :: 0 <= i < |o| ==> o[i] == d.back[i + 1];
    if Late(d.mine, d.back, t, c) {
      var i :| 0 <= i < |d.back| && IsDel(d.back[i], c) && (t !in d.mine || !NoDel(t, d.back[..i]));
      NoneYet(d.back, t);
      if i > 0 {
        assert IsDel(o[i - 1], c);
        LateNext(d, d1, t, c, i);
      }
    }
  }

  lemma NoneYet(q: seq<Msg>, t: Name)
    ensures NoDel(t, q[..0])
  {}

  lemma LateNext(d: Dir, d1: Dir, t: Name, c: Name, i: int)
    requires d.back != [] && d1 == AfterRecv(d) && 0 < i < |d.back| && IsDel(d.back[i], c) && (t !in d.mine || !NoDel(t, d.back[..i]))
    requires t.Name? && c in d.mine && (t in d.mine ==> d.mine[t].tx.del || !d.mine[c].tx.del)
    requires t !in d.mine ==> t !in d1.mine
    ensures d.mine[c].tx.del ==> Late(d1.mine, d.back[1..], t, c)
  {
    var o := d.back[1..];
    assert o[i - 1] == d.back[i];
    if t in d1.mine && t in d.mine && d.mine[c].tx.del {
      var j :| 0 <= j < i && d.back[..i][j].ref == t && d.back[..i][j].cmd.del;
      assert d.back[..i][j] == d.back[j];
      if j > 0 {
        assert o[..i - 1][j - 1] == d.back[j];
      }
    }
  }

  // ---------------------------------------------------------------- until nothing is under way

  function Pending(y: System): nat { 2 * |y.a.txmsgq| + 2 * |y.b.txmsgq| + |y.ab| + |y.ba| }

  /** A step that is neither of side `s` on what it may not touch, nor lost. */
  lemma DoomFlush(y: System, x: set<Name>, s: Side, t: Name, c: Name, u: Side)
    requires Doom(y, x, s, t, c) && EndOf(y, u).txmsgq != []
    ensures Next(y, Flushes(u)).Ok? && Doom(Next(y, Flushes(u)).value, x, s, t, c) && Pending(Next(y, Flushes(u)).value) < Pending(y)
  {
    hide InvAt, Sound, Half, Alive, Flush, DoomBits;
    InvSides(y, x, u);
    FlushStep(y, x, u);
    StepKeeps(y, x, Flushes(u));
    FlushOk(EndOf(y, u));
  }

  lemma DoomReceive(y: System, x: set<Name>, s: Side, t: Name, c: Name, u: Side)
    requires Doom(y, x, s, t, c) && Wire(y, Other(u)) != []
    ensures var r := Next(y, Receives(u)); r.Ok? ==> Doom(r.value, x, s, t, c) && Pending(r.value) < Pending(y)
  {
    hide InvAt, Sound, Half, Alive, MsgRx, DoomBits, Stranded, AfterRecv;
    InvSides(y, x, u);
    StepKeeps(y, x, Receives(u));
    var r, e := Next(y, Receives(u)), EndOf(y, u);
    if r.Ok? {
      var d, f := View(y, u, x), View(y, Other(u), x);
      ReceivedOne(y, x, u);
      InvSides(r.value, x, u);
      if u == s {
        DoomAtOwner(y, x, s, t, c);
      } else {
        DoomAtPeer(y, x, s, t, c);
      }
    }
  }

  /** What a message that was received changes. */
  lemma ReceivedOne(y: System, x: set<Name>, u: Side)
    requires InvX(y, x) && Wire(y, Other(u)) != [] && Next(y, Receives(u)).Ok?
    ensures !Stranded(y, u)
    ensures var y1 := Next(y, Receives(u)).value;
      && View(y1, u, x) == AfterRecv(View(y, u, x)) && Mine(y1, Other(u)) == Mine(y, Other(u))
      && Pending(y1) < Pending(y) && EndOf(y1, Other(u)) == EndOf(y, Other(u))
  {
    hide InvAt, Sound, Half, Alive, MsgRx, AfterRecv, InvX, Stranded;
    InvSides(y, x, u);
    if Stranded(y, u) {
      StrandedFails(y, x, u);
    }
    ReceiveStep(y, x, u);
    SoundAt(y, x, u);
    MsgRxOk(EndOf(y, u), Wire(y, Other(u))[0]);
  }

  lemma SoundAt(y: System, x: set<Name>, u: Side)
    requires InvX(y, x)
    ensures Sound(EndOf(y, u)) && Names(EndOf(y, u)) && EndOf(y, u).me == u && Half(View(y, u, x)) && Half(View(y, Other(u), x))
    ensures Mirror(View(y, u, x), View(y, Other(u), x))
  {
    hide Sound, Half, Names, Alive;
  }

  lemma DoomAtOwner(y: System, x: set<Name>, s: Side, t: Name, c: Name)
    requires Doom(y, x, s, t, c) && Wire(y, Other(s)) != [] && Next(y, Receives(s)).Ok? && InvX(Next(y, Receives(s)).value, x)
    ensures Doom(Next(y, Receives(s)).value, x, s, t, c)
  {
    hide Sound, Half, Alive, DoomBits, AfterRecv, Next, Names, InvX;
    ReceivedOne(y, x, s);
    var y1, d, f := Next(y, Receives(s)).value, View(y, s, x), View(y, Other(s), x);
    SoundAt(y, x, s);
    SoundAt(y1, x, s);
    BackRest(d);
    DoomRecv(d, f, t, c);
  }

  lemma BackRest(d: Dir)
    requires d.back != []
    ensures AfterRecv(d).back == d.back[1..] && AfterRecv(d).out == d.out && AfterRecv(d).s == d.s
  {}

  lemma DoomAtPeer(y: System, x: set<Name>, s: Side, t: Name, c: Name)
    requires Doom(y, x, s, t, c) && Wire(y, s) != [] && Next(y, Receives(Other(s))).Ok? && InvX(Next(y, Receives(Other(s))).value, x)
    ensures Doom(Next(y, Receives(Other(s))).value, x, s, t, c)
  {
    hide Sound, Half, Alive, AfterRecv, Next, Names, InvX, Late;
    var u := Other(s);
    ReceivedOne(y, x, u);
    var y1, d, f := Next(y, Receives(u)).value, View(y, u, x), View(y, s, x);
    SoundAt(y, x, u);
    BackRest(d);
    KeepsCreate(d, f, t);
  }

  lemma KeepsCreate(d: Dir, e: Dir, t: Name)
    requires Half(d) && Half(e) && Mirror(d, e) && d.back != [] && t.Name?
    ensures t.side == d.s && t in AfterRecv(d).mine ==> t in d.mine && AfterRecv(d).mine[t].tx == d.mine[t].tx
  {
    if d.back[0].ref == t {
      NextMessage(d, e);
    }
  }

  lemma {:induction false} Drains(y: System, x: set<Name>, s: Side, t: Name, c: Name)
    requires Doom(y, x, s, t, c)
    ensures Harmed(y)
    decreases Pending(y)
  {
    hide Doom, Next, Harmed;
    if y.a.txmsgq != [] {
      DoomFlush(y, x, s, t, c, A);
      Drains(Next(y, Flushes(A)).value, x, s, t, c);
      HarmedBefore(y, Flushes(A));
    } else if y.b.txmsgq != [] {
      DoomFlush(y, x, s, t, c, B);
      Drains(Next(y, Flushes(B)).value, x, s, t, c);
      HarmedBefore(y, Flushes(B));
    } else if y.ab != [] {
      DoomReceive(y, x, s, t, c, B);
      if Next(y, Receives(B)).Ok? {
        Drains(Next(y, Receives(B)).value, x, s, t, c);
      }
      HarmedBefore(y, Receives(B));
    } else if y.ba != [] {
      DoomReceive(y, x, s, t, c, A);
      if Next(y, Receives(A)).Ok? {
        Drains(Next(y, Receives(A)).value, x, s, t, c);
      }
      HarmedBefore(y, Receives(A));
    } else {
      Closes(y, x, s, t, c);
    }
  }

  // ---------------------------------------------------------------- until only the ancestors are open

  /** `u` is `t`, or `t` is stacked under it. */
  predicate Above(u: Name, t: Name)
    decreases t
  {
    u == t || (t.Name? && Above(u, t.parent))
  }

  function Depth(u: Name): nat
    decreases u
  {
    if u.Root? then 0 else 1 + Depth(u.parent)
  }

  lemma {:induction false} AboveDepth(u: Name, t: Name)
    requires Above(u, t)
    ensures Depth(u) <= Depth(t) && (u != t ==> Depth(u) < Depth(t)) && (u.Name? ==> Above(u.parent, t))
    decreases t
  {
    if u != t {
      AboveDepth(u, t.parent);
    } else if u.Name? {
      assert Above(u.parent, u.parent);
    }
  }

  predicate Kept(x: set<Name>, t: Name, u: Name) { u in x || Above(u, t) }

  /** All open transactions that may be closed. */
  ghost function Others(y: System, x: set<Name>, t: Name): set<Name> {
    set u | u in Mine(y, A).Keys + Mine(y, B).Keys && !Kept(x, t, u)
  }

  lemma {:induction false} Deepest(names: set<Name>) returns (u: Name)
    requires names != {}
    ensures u in names && forall v {:trigger v in names} :: v in names ==> Depth(v) <= Depth(u)
    decreases |names|
  {
    u :| u in names;
    if names != {u} {
      var v := Deepest(names - {u});
      forall w {:trigger w in names} | w in names ensures Depth(w) <= Depth(u) || Depth(w) <= Depth(v) {
        assert w != u ==> w in names - {u};
      }
      u := if Depth(v) > Depth(u) then v else u;
    }
  }

  ghost function OpenIn(m: map<Name, Bits>): set<Name> { set u | u in m && !m[u].tx.del }

  ghost function NewIn(m: map<Name, Bits>, s: Side): set<Name> { set u | u in m && u.Name? && u.side == s && !m[u].tx.create }

  /** How many more times something can be closed. */
  ghost function Weight(y: System): nat {
    |OpenIn(Mine(y, A))| + |NewIn(Mine(y, A), A)| + |OpenIn(Mine(y, B))| + |NewIn(Mine(y, B), B)|
  }

  lemma Less<T>(a: set<T>, b: set<T>, t: T)
    requires t in a && b <= a - {t}
    ensures |b| < |a|
  {
    Fewer(b, a - {t});
  }

  lemma {:induction false} Fewer<T>(a: set<T>, b: set<T>)
    requires a <= b
    ensures |a| <= |b|
    decreases |a|
  {
    if a != {} {
      var t :| t in a;
      Fewer(a - {t}, b - {t});
    }
  }

  lemma WeightSent(m: map<Name, Bits>, u: Name, s: Side, b: Bits)
    requires u in m && !m[u].tx.del && b.tx.create && b.tx.del && u.Name?
    ensures |OpenIn(Become(m, u, b))| < |OpenIn(m)| && |NewIn(Become(m, u, b), s)| <= |NewIn(m, s)|
    ensures u.side == s && !m[u].tx.create ==> |NewIn(Become(m, u, b), s)| < |NewIn(m, s)|
  {
    var m1 := Become(m, u, b);
    Less(OpenIn(m), OpenIn(m1), u);
    assert NewIn(m1, s) <= NewIn(m, s) - {u};
    Fewer(NewIn(m1, s), NewIn(m, s));
    if u.side == s && !m[u].tx.create {
      Less(NewIn(m, s), NewIn(m1, s), u);
    }
  }

  lemma WeightTaken(p: map<Name, Bits>, u: Name, s: Side, b: Bits)
    requires u.Name? && if u in p then b.tx == p[u].tx else u.side != s
    ensures |OpenIn(Become(p, u, b))| <= |OpenIn(p)| + (if u in p then 0 else 1) && |NewIn(Become(p, u, b), s)| <= |NewIn(p, s)|
  {
    var p1 := Become(p, u, b);
    assert OpenIn(p1) <= OpenIn(p) + (if u in p then {} else {u});
    Fewer(OpenIn(p1), OpenIn(p) + (if u in p then {} else {u}));
    Fewer(NewIn(p1, s), NewIn(p, s));
  }

  /** When nothing is under way, some side has each open transaction open in its transmit direction,
      and one that the other does not know is its own and not written yet. */
  lemma SomeOpen(y: System, x: set<Name>, s: Side, u: Name)
    requires InvX(y, x) && Still(y) && u in Mine(y, s) && u.Name?
    ensures var m, p := Mine(y, s), Mine(y, Other(s));
      if u in p then
        && m[u].tx.create == p[u].rx.create && m[u].tx.del == p[u].rx.del && m[u].rx.create == p[u].tx.create && m[u].rx.del == p[u].tx.del
        && Good(m[u]) && Good(p[u]) && (if u.side == s then p[u].rx.create else m[u].rx.create)
      else u.side == s && !m[u].tx.create && !m[u].tx.del
  {
    hide Sound, Alive;
    SoundAt(y, x, s);
    assert Agreed(View(y, u.side, x), u) by { SoundAt(y, x, u.side); }
  }

  ghost predicate AfterSent(y: System, y1: System, u: Name, v: Side)
    requires u in Mine(y, v)
  {
    var m := Mine(y, v);
    && Mine(y1, v) == Become(m, u, Bits(m[u].tx.(create := true, del := true), m[u].rx)) && Mine(y1, Other(v)) == Mine(y, Other(v))
    && |Out(y1, v)| == 1 && Out(y1, v)[0].ref == u && Out(y1, v)[0].cmd.del && Out(y1, v)[0].cmd.create == !m[u].tx.create
    && Out(y1, Other(v)) == []
  }

  lemma SentOne(y: System, x: set<Name>, u: Name, v: Side) returns (y1: System)
    requires InvX(y, x) && Still(y) && u.Name? && u !in x && u in Mine(y, v) && !Mine(y, v)[u].tx.del
    requires forall w {:trigger w in Mine(y, v)} :: w in Mine(y, v) && w.Name? && w.side == v ==> w.parent != u
    ensures Next(y, Sends(v, u, true)) == Ok(y1) && InvX(y1, x) && EndOf(y1, v).txmsgq != [] && AfterSent(y, y1, u, v)
    ensures Disciplined(y, Sends(v, u, true))
  {
    hide Sound, Half, Alive, InvAt, InvX, Become, Settling, Send;
    SoundAt(y, x, v);
    var e := EndOf(y, v);
    AliveIn(e, u);
    AliveBits(e, u);
    SendOk(e, u, true);
    StepKeeps(y, x, Sends(v, u, true));
    y1 := Next(y, Sends(v, u, true)).value;
  }

  lemma FlushedOne(y: System, x: set<Name>, u: Name, v: Side, y1: System) returns (y2: System)
    requires u.Name? && u !in x && u in Mine(y, v) && InvX(y1, x) && AfterSent(y, y1, u, v) && EndOf(y1, v).txmsgq != []
    ensures Next(y1, Flushes(v)) == Ok(y2) && InvX(y2, x) && AfterSent(y, y2, u, v) && Wire(y2, v) == Out(y2, v)
    ensures Next(y2, Receives(Other(v))).Ok? && InvX(Next(y2, Receives(Other(v))).value, x)
  {
    hide Sound, Half, Alive, InvX, InvAt, Become, Flush, MsgRx, Stranded;
    SoundAt(y1, x, v);
    InvSides(y1, x, v);
    FlushStep(y1, x, v);
    FlushOk(EndOf(y1, v));
    StepKeeps(y1, x, Flushes(v));
    y2 := Next(y1, Flushes(v)).value;
    StepKeeps(y2, x, Receives(Other(v)));
    InvSides(y2, x, Other(v));
    NotStranded(y2, x, Other(v));
  }

  /** One side closes a transaction, from one state in which nothing is under way to the next. */
  lemma PassOne(y: System, x: set<Name>, u: Name, v: Side) returns (y3: System, msg: Msg)
    requires InvX(y, x) && Still(y) && u.Name? && u !in x && u in Mine(y, v) && !Mine(y, v)[u].tx.del
    requires forall w {:trigger w in Mine(y, v)} :: w in Mine(y, v) && w.Name? && w.side == v ==> w.parent != u
    ensures InvX(y3, x) && Still(y3) && (Harmed(y3) ==> Harmed(y)) && msg.ref == u &&
      msg.cmd.del && msg.cmd.create == !Mine(y, v)[u].tx.create
    ensures Mine(y3, v) == Become(Mine(y, v), u, Bits(Mine(y, v)[u].tx.(create := true, del := true), Mine(y, v)[u].rx))
    ensures Mine(y3, Other(v)) == Become(Mine(y, Other(v)), u, Taken(Mine(y, Other(v)), msg))
  {
    hide Next, Sound, Half, Alive, InvX, Become, Harmed, Taken;
    var y1 := SentOne(y, x, u, v);
    var y2 := FlushedOne(y, x, u, v, y1);
    y3 := Next(y2, Receives(Other(v))).value;
    msg := Out(y2, v)[0];
    ReceivedOne(y2, x, Other(v));
    BackRest(View(y2, Other(v), x));
    if Harmed(y3) {
      HarmedBefore(y2, Receives(Other(v)));
      HarmedBefore(y1, Flushes(v));
      HarmedBefore(y, Sends(v, u, true));
    }
  }

  /** One more transaction is closed by one side. */
  lemma CloseOne(y: System, x: set<Name>, s: Side, t: Name, c: Name, u: Name, v: Side) returns (y3: System)
    requires Doom(y, x, s, t, c) && Still(y) && u.Name? && !Kept(x, t, u) && u in Mine(y, v) && !Mine(y, v)[u].tx.del
    requires forall w {:trigger w in Mine(y, v)} :: w in Mine(y, v) && w.Name? && w.side == v ==> w.parent != u
    ensures Doom(y3, x, s, t, c) && Still(y3) && Weight(y3) < Weight(y) && (Harmed(y3) ==> Harmed(y))
  {
    hide Doom, Next, Sound, Half, Alive, InvX, Become, DoomBits, Harmed, OpenIn, NewIn, Taken;
    var msg;
    DoomHas(y, x, s, t, c);
    y3, msg := PassOne(y, x, u, v);
    var m, p := Mine(y, v), Mine(y, Other(v));
    WeightSent(m, u, v, Bits(m[u].tx.(create := true, del := true), m[u].rx));
    SomeOpen(y, x, v, u);
    TakenTx(p, msg);
    WeightTaken(p, u, Other(v), Taken(p, msg));
    Unmoved(y, y3, x, s, t, c, u, v, Bits(m[u].tx.(create := true, del := true), m[u].rx), Taken(p, msg));
  }

  lemma DoomHas(y: System, x: set<Name>, s: Side, t: Name, c: Name)
    requires Doom(y, x, s, t, c)
    ensures InvX(y, x)
  {}

  /** Nothing has changed for `t` and `c`. */
  lemma Unmoved(y: System, y3: System, x: set<Name>, s: Side, t: Name, c: Name, u: Name, v: Side, b: Bits, b': Bits)
    requires Doom(y, x, s, t, c) && Still(y) && Still(y3) && InvX(y3, x) && !Kept(x, t, u)
    requires Mine(y3, v) == Become(Mine(y, v), u, b) && Mine(y3, Other(v)) == Become(Mine(y, Other(v)), u, b')
    ensures Doom(y3, x, s, t, c)
  {
    hide InvX, Alive;
    assert Above(t, t);
  }

  lemma TakenTx(p: map<Name, Bits>, m: Msg)
    ensures m.ref in p ==> Taken(p, m).tx == p[m.ref].tx
  {}

  lemma {:induction false} RootAbove(t: Name)
    ensures Above(Root, t)
    decreases t
  {
    if t.Name? {
      RootAbove(t.parent);
    }
  }

  lemma NoChild(y: System, x: set<Name>, s: Side, t: Name, c: Name, u: Name, v: Side)
    requires Doom(y, x, s, t, c) && u in Others(y, x, t)
    requires forall w {:trigger w in Others(y, x, t)} :: w in Others(y, x, t) ==> Depth(w) <= Depth(u)
    ensures forall w {:trigger w in Mine(y, v)} :: w in Mine(y, v) && w.Name? && w.side == v ==> w.parent != u
  {
    hide Alive, InvX, DoomBits;
    forall w {:trigger w in Mine(y, v)} | w in Mine(y, v) && w.Name? && w.side == v ensures w.parent != u {
      ParentKept(x, s, t, w);
      var depth, other := Depth(w), w in Others(y, x, t);
    }
  }

  lemma ParentKept(x: set<Name>, s: Side, t: Name, w: Name)
    requires w.Name? && forall u {:trigger u in x} :: u in x ==> u.Name? && u.side == s && u.parent == t
    ensures Kept(x, t, w) ==> Kept(x, t, w.parent)
  {
    assert Above(t, t);
    if Above(w, t) {
      AboveDepth(w, t);
    }
  }

  /** All that is neither an ancestor nor exempt is closed, the innermost first. */
  lemma {:induction false} Closes(y: System, x: set<Name>, s: Side, t: Name, c: Name)
    requires Doom(y, x, s, t, c) && Still(y)
    ensures Harmed(y)
    decreases Weight(y)
  {
    hide Harmed, InvX, Alive, DoomBits, Good;
    var names := Others(y, x, t);
    if names != {} {
      var u := Deepest(names);
      RootAbove(t);
      var v := if u in Mine(y, A) then A else B;
      SomeOpen(y, x, v, u);
      if Mine(y, v)[u].tx.del {
        GoodOnce(Mine(y, v)[u]);
        v := Other(v);
      }
      NoChild(y, x, s, t, c, u, v);
      var y3 := CloseOne(y, x, s, t, c, u, v);
      Closes(y3, x, s, t, c);
    } else {
      Last(y, x, s, t, c);
    }
  }

  lemma GoodOnce(b: Bits)
    requires Good(b)
    ensures b.tx.del ==> !b.rx.del
  {}

  // ---------------------------------------------------------------- the end

  /** `t` is open at neither side, or at `s` alone, and a message can be sent on `c`. */
  ghost predicate Ended(y: System, x: set<Name>, s: Side, t: Name, c: Name) {
    var m := Mine(y, s);
    && InvX(y, x) && Still(y) && t.Name? && c.Name? && c.side == s && c.parent == t && c in m && t !in Mine(y, Other(s))
    && (t in m ==> t.side == s && !m[c].tx.del) && (m[c].tx.del ==> !m[c].rx.del)
  }

  lemma Last(y: System, x: set<Name>, s: Side, t: Name, c: Name)
    requires Doom(y, x, s, t, c) && Still(y) && Others(y, x, t) == {}
    ensures Harmed(y)
  {
    hide Harmed, InvX, Alive, Good;
    var v, m, p := Other(s), Mine(y, s), Mine(y, Other(s));
    if t in m && m[t].tx.del {
      SomeOpen(y, x, s, t);
      GoodOnce(m[t]);
      NoOwnChild(y, x, s, t, c);
      assert Depth(t) == 1 + Depth(t.parent);
      var y3, msg := PassOne(y, x, t, v);
      assert Ended(y3, x, s, t, c);
      Finish(y3, x, s, t, c);
    } else {
      if t in p {
        SomeOpen(y, x, v, t);
      }
      assert Ended(y, x, s, t, c);
      Finish(y, x, s, t, c);
    }
  }

  lemma NoOwnChild(y: System, x: set<Name>, s: Side, t: Name, c: Name)
    requires Doom(y, x, s, t, c) && Others(y, x, t) == {}
    ensures forall w {:trigger w in Mine(y, Other(s))} :: w in Mine(y, Other(s)) && w.Name? && w.side == Other(s) ==> w.parent != t
  {
    hide Alive, InvX, DoomBits;
    forall w {:trigger w in Mine(y, Other(s))} | w in Mine(y, Other(s)) && w.Name? && w.side == Other(s) ensures w.parent != t {
      var other := w in Others(y, x, t);
      if Above(w, t) {
        AboveDepth(w, t);
      }
    }
  }

  lemma Finish(y: System, x: set<Name>, s: Side, t: Name, c: Name)
    requires Ended(y, x, s, t, c)
    ensures Harmed(y)
  {
    hide InvX, Alive, Harmed;
    if Mine(y, s)[c].tx.del {
      PeerSends(y, x, s, t, c);
    } else {
      OwnerSends(y, x, s, t, c);
    }
  }

  /** The peer sends on `c`; the circuit is gone. */
  lemma PeerSends(y: System, x: set<Name>, s: Side, t: Name, c: Name)
    requires Ended(y, x, s, t, c) && Mine(y, s)[c].tx.del
    ensures Harmed(y)
  {
    hide Sound, Half, Alive, InvAt, InvX, Become, Settling, Send, Harmed, MsgRx, Good;
    var v := Other(s);
    SomeOpen(y, x, s, c);
    SoundAt(y, x, v);
    var e := EndOf(y, v);
    AliveIn(e, c);
    AliveBits(e, c);
    SendOk(e, c, false);
    StepKeeps(y, x, Sends(v, c, false));
    var y1 := Next(y, Sends(v, c, false)).value;
    SoundAt(y1, x, v);
    FlushOk(EndOf(y1, v));
    StepKeeps(y1, x, Flushes(v));
    var y2 := Next(y1, Flushes(v)).value;
    InvSides(y2, x, s);
    StrandedFails(y2, x, s);
    HarmedBefore(y2, Receives(s));
    HarmedBefore(y1, Flushes(v));
    HarmedBefore(y, Sends(v, c, false));
  }

  /** Nothing is under way, and both ends are sound; the invariant need not hold. */
  ghost predicate Calm(y: System) { Still(y) && y.a.me == A && y.b.me == B && Sound(y.a) && Sound(y.b) }

  /** A side sends a message that closes nothing, and it goes on the wire. */
  lemma Speak(y: System, v: Side, c: Name) returns (y2: System, m: Msg)
    requires Calm(y) && c.Name? && c in Mine(y, v) && !Mine(y, v)[c].tx.del
    ensures Harmed(y2) ==> Harmed(y)
    ensures m == MsgOf(v, c, Cmd(!Mine(y, v)[c].tx.create, false, c.side != v)) && Wire(y2, v) == [m] && Wire(y2, Other(v)) == []
    ensures EndOf(y2, Other(v)) == EndOf(y, Other(v)) && EndOf(y2, v).txmsgq == [] && EndOf(y2, v).me == v && Sound(EndOf(y2, v))
    ensures Mine(y2, v) == Mine(y, v)[c := Bits(Mine(y, v)[c].tx.(create := true), Mine(y, v)[c].rx)]
  {
    hide Sound, Alive, Send, Harmed, Flush, MsgRx;
    var e := EndOf(y, v);
    AliveIn(e, c);
    AliveBits(e, c);
    SendOk(e, c, false);
    var y1 := Next(y, Sends(v, c, false)).value;
    FlushOk(EndOf(y1, v));
    y2 := Next(y1, Flushes(v)).value;
    m := EndOf(y1, v).txmsgq[0];
    if Harmed(y2) {
      HarmedBefore(y1, Flushes(v));
      HarmedBefore(y, Sends(v, c, false));
    }
  }

  /** The opener sends on `c`; the circuit is gone at the peer, or its msgid is taken by another one. */
  lemma OwnerSends(y: System, x: set<Name>, s: Side, t: Name, c: Name)
    requires Ended(y, x, s, t, c) && !Mine(y, s)[c].tx.del
    ensures Harmed(y)
  {
    hide Sound, Half, Alive, InvX, Harmed, MsgRx, Names, View;
    var v := Other(s);
    SoundAt(y, x, s);
    SoundAt(y, x, v);
    var y2, m := Speak(y, s, c);
    var g := EndOf(y, v);
    ProperId(y, s, c);
    LookupSome(g, t.side, t.id);
    var r := FindCircuit(g, m);
    MsgRxOk(g, m);
    if Next(y2, Receives(v)).Ok? {
      Misled(y, x, s, t, c, m);
      var y3 := Next(y2, Receives(v)).value;
      Answer(y, y2, y3, s, t, c, m, r);
    }
    HarmedBefore(y2, Receives(v));
  }

  lemma ProperId(y: System, s: Side, c: Name)
    requires Names(EndOf(y, s)) && c in Mine(y, s) && c.Name?
    ensures c.id != 0 && (c.parent.Name? ==> c.parent.id != 0)
  {
    AliveIn(EndOf(y, s), c);
    assert Proper(c.parent);
  }

  /** The peer takes the message only if it takes another circuit for the right one and does not
      know the transaction; then that circuit is not open at the opener. */
  lemma Misled(y: System, x: set<Name>, s: Side, t: Name, c: Name, m: Msg)
    requires Ended(y, x, s, t, c) && !Mine(y, s)[c].tx.del && m == MsgOf(s, c, Cmd(!Mine(y, s)[c].tx.create, false, false))
    requires !NoCircuit(EndOf(y, Other(s)), m) && Fits(EndOf(y, Other(s)), m)
    ensures var g := EndOf(y, Other(s)); FindCircuit(g, m) != Root && FindState(g, m) == Root && m.cmd.create && t !in Mine(y, s)
    ensures var r := FindCircuit(EndOf(y, Other(s)), m); r in Mine(y, Other(s)) && r.Name? && r.side == t.side && r.id == t.id && r.id != 0
  {
    hide Sound, Half, Alive, InvX, Names;
    var v, g := Other(s), EndOf(y, Other(s));
    SoundAt(y, x, s);
    SoundAt(y, x, v);
    ProperId(y, s, c);
    LookupSome(g, t.side, t.id);
    LookupSome(g, s, c.id);
    var r, q := FindCircuit(g, m), FindState(g, m);
    SomeOpen(y, x, s, c);
    if c in Mine(y, v) {
      Lookup(g, c);
    } else if q != Root {
      AliveBits(g, q);
    }
    if t in Mine(y, s) {
      SomeOpen(y, x, v, r);
      SameId(View(y, s, x), t, r);
    }
  }

  lemma SameId(d: Dir, t: Name, r: Name)
    requires Half(d) && t in d.mine && r in d.mine && t.Name? && r.Name? && Own(d, t) && r.side == t.side && r.id == t.id
    ensures t == r
  {
    var clash := Clash(t, r);
  }

  /** The peer answers; now the opener finds another circuit than that of the transaction, or none. */
  lemma Answer(y: System, y2: System, y3: System, s: Side, t: Name, c: Name, m: Msg, r: Name)
    requires Sound(EndOf(y, Other(s))) && y.a.me == A && y.b.me == B && t.Name? && c.Name? &&
      c.side == s && c.parent == t && t !in Mine(y2, s) && c in Mine(y2, s)
    requires EndOf(y2, Other(s)) == EndOf(y, Other(s)) && EndOf(y, Other(s)).txmsgq == [] &&
      EndOf(y2, s).txmsgq == [] && Sound(EndOf(y2, s)) && EndOf(y2, s).me == s
    requires Wire(y2, s) == [m] && Wire(y2, Other(s)) == [] && Next(y2, Receives(Other(s))) == Ok(y3)
    requires m.ref == c && m.id == c.id && m.cmd == Cmd(true, false, false) &&
      FindState(EndOf(y, Other(s)), m) == Root && FindCircuit(EndOf(y, Other(s)), m) == r
    requires r.Name? && r.id != 0
    ensures Harmed(y3)
  {
    hide Sound, Alive, Harmed, MsgRx;
    var v, g, e := Other(s), EndOf(y, Other(s)), EndOf(y2, s);
    MsgRxOk(g, m);
    var c' := Name(s, Serial(c), c.id, r);
    var y5, m' := Speak(y3, v, c');
    Lookup(e, c);
    LookupSome(e, r.side, r.id);
    MsgRxOk(e, m');
    HarmedBefore(y5, Receives(s));
  }

  // ---------------------------------------------------------------- the two rules

  lemma NotHarmed(y: System)
    requires Inv(y)
    ensures !Harmed(y)
  {
    hide Inv;
    if Harmed(y) {
      var steps :| Orderly(y, steps) && match Exec(y, steps) case Failed => true case Ran(_, lost) => lost > 0;
      RunSafe(y, steps);
    }
  }

  /** Exempting transactions promises less. */
  lemma SkipMore(y: System, x: set<Name>)
    requires Inv(y)
    ensures InvX(y, x)
  {
    hide Sound, Alive;
    SkipHalf(View(y, A, {}), x);
    SkipHalf(View(y, B, {}), x);
  }

  lemma SkipHalf(d: Dir, x: set<Name>)
    requires Half(d) && d.skip == {}
    ensures Half(d.(skip := x))
  {
    var d1 := d.(skip := x);
    forall u: Name {:trigger Agreed(d1, u)} | u.Name? && u.side == d1.s ensures Agreed(d1, u) {
      assert Agreed(d, u);
    }
    forall t {:trigger t in d1.mine} | t in d1.mine && t.Name? && t.side == d1.s ensures StackedAt(d1, t) {
      assert StackedAt(d, t);
      assert Settling(d, t) ==> Settling(d1, t);
    }
    forall j {:trigger d1.out[j]} | 0 <= j < |d1.out| && Own(d1, d1.out[j].ref) ensures Ready(d1, d1.out[j].ref.parent, d1.out[..j]) {
      assert Ready(d, d.out[j].ref.parent, d.out[..j]);
    }
  }

  lemma {:induction false} StreamCreated(rx: Cmd, q: seq<Msg>, t: Name, tx: Cmd)
    requires Stream(rx, q, t, tx) && rx.create
    ensures tx.create
    decreases |q|
  {
    if q != [] {
      StreamCreated(if q[0].ref != t then rx else rx.(create := true, del := q[0].cmd.del), q[1..], t, tx);
    }
  }

  /** A transaction that the peer opened and that this side knows, or knew, is not on its way. */
  lemma NotComing(y: System, s: Side, t: Name)
    requires Inv(y) && t.Name? && t.side != s && t in EndOf(y, s).states
    ensures !Created(t, Out(y, Other(s))) && (t in Mine(y, Other(s)) ==> Mine(y, Other(s))[t].tx.create)
  {
    hide Sound, Alive;
    SoundAt(y, {}, t.side);
    var d := View(y, t.side, {});
    assert Agreed(d, t);
    if t in d.theirs {
      var tx := if t in d.mine then d.mine[t].tx else CLOSED;
      StreamOpen(d.theirs[t].rx, d.out, t, tx);
      StreamCreated(d.theirs[t].rx, d.out, t, tx);
    }
  }

  /** Sending DELETE is harmless exactly if what this side opened under the transaction is closed. */
  lemma CloseExact(y: System, s: Side, t: Name)
    requires Inv(y) && t in EndOf(y, s).states && t.Name? && !EndOf(y, s).states[t].tx.del
    ensures Next(y, Sends(s, t, true)).Ok? && (Harmed(Next(y, Sends(s, t, true)).value) <==> !MayClose(y, s, t))
  {
    hide Inv, Harmed, MayClose;
    if MayClose(y, s, t) {
      StepSafe(y, Sends(s, t, true));
      NotHarmed(Next(y, Sends(s, t, true)).value);
    } else {
      CloseHarms(y, s, t);
    }
  }

  lemma CloseHarms(y: System, s: Side, t: Name)
    requires Inv(y) && t in EndOf(y, s).states && t.Name? && !EndOf(y, s).states[t].tx.del && !MayClose(y, s, t)
    ensures Next(y, Sends(s, t, true)).Ok? && Harmed(Next(y, Sends(s, t, true)).value)
  {
    hide Sound, Half, Alive, InvAt, InvX, Become, Settling, Send, Harmed, DoomBits;
    var e, m := EndOf(y, s), Mine(y, s);
    var x := set u | u in m && u.Name? && u.side == s && u.parent == t;
    var c :| c in x && !Settling(View(y, s, {}), c);
    assert Depth(t) == 1 + Depth(t.parent);
    SkipMore(y, x);
    SoundAt(y, x, s);
    AliveBits(e, t);
    SendOk(e, t, true);
    StepKeeps(y, x, Sends(s, t, true));
    var y1 := Next(y, Sends(s, t, true)).value;
    if t.side != s {
      NotComing(y, s, t);
    }
    SoundAt(y, {}, s);
    GoodBits(View(y, s, {}), View(y, Other(s), {}), c);
    HarmBits(View(y, s, {}), s, t, c, Mine(y1, s));
    assert Doom(y1, x, s, t, c);
    Drains(y1, x, s, t, c);
  }

  lemma HarmBits(d: Dir, s: Side, t: Name, c: Name, m1: map<Name, Bits>)
    requires t.Name? && c.Name? && c.parent == t && t in d.mine && c in d.mine && c != t && !Settling(d, c) && Good(d.mine[c])
    requires m1 == Become(d.mine, t, Bits(d.mine[t].tx.(create := true, del := true), d.mine[t].rx))
    requires t.side != s ==> !Created(t, d.back) && (t in d.theirs ==> d.theirs[t].tx.create)
    ensures c in m1 && DoomBits(m1, d.theirs, d.back, s, t, c)
  {
    if d.mine[c].tx.del && !NoDel(c, d.back) {
      var i :| 0 <= i < |d.back| && d.back[i].ref == c && d.back[i].cmd.del;
      assert IsDel(d.back[i], c);
      assert Late(m1, d.back, t, c);
    }
  }

  /** Opening a transaction is harmless exactly if this side has announced, and not closed, the one
      that it is stacked under. */
  lemma OpenExact(y: System, s: Side, p: Name, serial: nat, id: nat)
    requires Inv(y) && NewSerial(y, s, serial) && NewId(EndOf(y, s), id) && p in EndOf(y, s).states
    ensures Next(y, Opens(s, p, serial, id)).Ok? && (Harmed(Next(y, Opens(s, p, serial, id)).value) <==> !MayOpen(EndOf(y, s), p))
  {
    hide Inv, Harmed, NewSerial, NewId;
    if MayOpen(EndOf(y, s), p) {
      StepSafe(y, Opens(s, p, serial, id));
      NotHarmed(Next(y, Opens(s, p, serial, id)).value);
    } else {
      OpenHarms(y, s, p, serial, id);
    }
  }

  lemma OpenHarms(y: System, s: Side, p: Name, serial: nat, id: nat)
    requires Inv(y) && NewSerial(y, s, serial) && NewId(EndOf(y, s), id) && p in EndOf(y, s).states && !MayOpen(EndOf(y, s), p)
    ensures Next(y, Opens(s, p, serial, id)).Ok? && Harmed(Next(y, Opens(s, p, serial, id)).value)
  {
    hide Sound, Half, Alive, InvX, Open, Harmed, NewSerial, NewId, Late;
    var e, c := EndOf(y, s), Name(s, serial, id, p);
    var x := {c};
    SkipMore(y, x);
    SoundAt(y, x, s);
    AliveBits(e, p);
    StepKeeps(y, x, Opens(s, p, serial, id));
    InvSides(y, x, s);
    OpenStep(y, x, s, p, serial, id);
    var y1 := Next(y, Opens(s, p, serial, id)).value;
    if p.side != s {
      NotComing(y, s, p);
    }
    assert Depth(c) == 1 + Depth(p);
    assert Doom(y1, x, s, p, c);
    Drains(y1, x, s, p, c);
  }
}
