/** A network of daemons that relay each other's SPANs over connections that may fail. */
module SpanNet {
  import opened SpanOrder
  import opened Spans

  /** The two ends of a connection are iocoms; each belongs to a daemon and has a peer. */
  datatype Wires = Wires(owner: nat -> nat, peer: nat -> nat) {
    ghost predicate Valid() {
      forall c {:trigger peer(peer(c))} :: peer(peer(c)) == c && peer(c) != c
    }
  }

  /** What travels on a connection: a SPAN transaction is opened or ended; the connection broke. */
  datatype Msg = Begin(span: Link) | End(span: Link) | Eof

  /** `chan(c)` was sent on iocom `c` and not handled by its peer; `out(c, l)` is the SPAN that
      the relay of `l` on `c` sent; `announced` are the SPANs that end systems sent, rather than
      daemons; a dead iocom is broken; `owed(c)` messages of `chan(c)` belong to the current round. */
  datatype Net = Net(daemons: nat -> Topology, chan: nat -> seq<Msg>, out: (nat, Link) -> Link,
                     announced: set<Link>, dead: set<nat>, owed: nat -> int)

  datatype Step =
    | Announce(l: Link) | Withdraw(l: Link)
    | Connect(c: nat) | Disconnect(c: nat)
    | Relay(c: nat, l: Link, rnss: nat, state: nat) | Drop(c: nat, l: Link)
    | Deliver(c: nat, ends: seq<Msg>) | Fail(c: nat, kept: nat, ends: seq<Msg>)

  ghost predicate Live(w: Wires, x: Net, l: Link) { l in x.daemons(w.owner(l.iocom)).relayq }

  ghost predicate Relaying(w: Wires, x: Net, c: nat, l: Link) {
    c in x.daemons(w.owner(c)).conns && l in x.daemons(w.owner(c)).conns[c]
  }

  predicate Open(w: Wires, x: Net, c: nat) { c !in x.dead && w.peer(c) !in x.dead }

  /** The DELETEs that a failed connection makes up, one for each SPAN received on it. */
  ghost predicate EndsAll(w: Wires, x: Net, q: nat, ends: seq<Msg>) {
    && (forall i :: 0 <= i < |ends| ==> ends[i].End?)
    && (forall t {:trigger Live(w, x, t)} :: Live(w, x, t) && t.iocom == q ==> End(t) in ends)
  }

  /** A daemon's steps are those of `Daemon`: a link comes, or goes when its relays are gone; a
      connection too; a relay is created as the filters allow, or deleted, at any time. */
  ghost predicate Enabled(w: Wires, x: Net, s: Step) {
    match s
    case Announce(l) => l.iocom !in x.dead && Fresh(x.daemons(w.owner(l.iocom)), l.state)
    case Withdraw(l) => l in x.announced && (Live(w, x, l) ==> x.daemons(w.owner(l.iocom)).relayq[l] == {})
    case Connect(c) => c !in x.daemons(w.owner(c)).conns
    case Disconnect(c) => c in x.daemons(w.owner(c)).conns && x.daemons(w.owner(c)).conns[c] == []
    case Relay(c, l, _, _) =>
      && c in x.daemons(w.owner(c)).conns && l in x.daemons(w.owner(c)).relayq && !Relaying(w, x, c, l)
      && l.dist <= DMSG_SPAN_MAXDIST && l.iocom != c
    case Drop(c, l) => Relaying(w, x, c, l) && l in x.daemons(w.owner(c)).relayq
    case Deliver(c, ends) =>
      && x.chan(c) != []
      && match x.chan(c)[0] {
           case Begin(t) => Fresh(x.daemons(w.owner(t.iocom)), t.state)
           case End(t) => Live(w, x, t) ==> x.daemons(w.owner(t.iocom)).relayq[t] == {}
           case Eof => EndsAll(w, x, w.peer(c), ends)
         }
    case Fail(c, kept, ends) => c !in x.dead && kept <= |x.chan(c)| && EndsAll(w, x, c, ends)
  }

  ghost function SetTop(x: Net, d: nat, t: Topology): Net {
    x.(daemons := (e: nat) => if e == d then t else x.daemons(e))
  }

  ghost function SetChan(x: Net, c: nat, s: seq<Msg>, owed: int): Net {
    x.(chan := (b: nat) => if b == c then s else x.chan(b), owed := (b: nat) => if b == c then owed else x.owed(b))
  }

  /** Nothing gets into a broken connection. */
  ghost function Send(w: Wires, x: Net, c: nat, m: Msg): Net {
    if Open(w, x, c) then SetChan(x, c, x.chan(c) + [m], x.owed(c)) else x
  }

  ghost function Join(w: Wires, x: Net, l: Link): Net {
    var d := w.owner(l.iocom);
    SetTop(x, d, Created(x.daemons(d), l))
  }

  /** The end of a SPAN that is not relayed; one that is not there is ignored. */
  ghost function Leave(w: Wires, x: Net, l: Link): Net {
    var d := w.owner(l.iocom);
    var t := x.daemons(d);
    if l in t.relayq && l.node in t.links && l in t.links[l.node]
    then SetTop(x, d, Removed(t, l)).(announced := x.announced - {l})
    else x.(announced := x.announced - {l})
  }

  ghost function Pop(x: Net, c: nat): Net
    requires x.chan(c) != []
  {
    SetChan(x, c, x.chan(c)[1..], if x.owed(c) == 0 then 0 else x.owed(c) - 1)
  }

  /** Iocom `c` breaks: some of what it sent still arrives, and then the peer notices, unless that
      is broken already; and its received SPANs end, in some order. */
  ghost function Break(w: Wires, x: Net, c: nat, kept: nat, ends: seq<Msg>): Net
    requires kept <= |x.chan(c)|
  {
    var y := if w.peer(c) in x.dead then x else SetChan(x, c, x.chan(c)[..kept] + [Eof], kept + 1);
    SetChan(y, w.peer(c), ends, |ends|).(dead := x.dead + {c})
  }

  ghost function Next(w: Wires, x: Net, s: Step): Net
    requires Enabled(w, x, s)
  {
    match s
    case Announce(l) => Join(w, x, l).(announced := x.announced + {l})
    case Withdraw(l) => Leave(w, x, l)
    case Connect(c) =>
      var d := w.owner(c);
      SetTop(x, d, x.daemons(d).(conns := x.daemons(d).conns[c := []]))
    case Disconnect(c) =>
      var d := w.owner(c);
      SetTop(x, d, x.daemons(d).(conns := x.daemons(d).conns - {c}))
    case Relay(c, l, rnss, state) =>
      var d, t := w.owner(c), Relayed(l, rnss, state, w.peer(c));
      Send(w, SetTop(x, d, Generated(x.daemons(d), c, l)).(
        out := (b: nat, k: Link) => if b == c && k == l then t else x.out(b, k)), c, Begin(t))
    case Drop(c, l) =>
      var d := w.owner(c);
      Send(w, SetTop(x, d, Deleted(x.daemons(d), c, l)), c, End(x.out(c, l)))
    case Deliver(c, ends) =>
      (match x.chan(c)[0] {
         case Begin(t) => Join(w, Pop(x, c), t)
         case End(t) => Pop(Leave(w, x, t), c)
         case Eof => if w.peer(c) in x.dead then Pop(x, c) else Break(w, x, w.peer(c), |x.chan(w.peer(c))|, ends)
       })
    case Fail(c, kept, ends) => Break(w, x, c, kept, ends)
  }

  /** Behind position `i`, and before `k`, the end of the SPAN is under way. */
  ghost predicate Ends(s: seq<Msg>, t: Link, i: int, k: int) {
    exists j :: i <= j < k && 0 <= j < |s| && (s[j] == End(t) || s[j] == Eof)
  }

  ghost predicate DaemonOk(w: Wires, t: Topology, d: nat) {
    && NodesOk(t) && RelaysOk(t)
    && forall l {:trigger l in t.relayq} :: l in t.relayq ==> w.owner(l.iocom) == d
  }

  ghost predicate DaemonsOk(w: Wires, x: Net) {
    forall d {:trigger x.daemons(d)} :: DaemonOk(w, x.daemons(d), d)
  }

  /** The relay's SPAN is the received one, one farther. */
  ghost predicate Carries(w: Wires, c: nat, l: Link, t: Link) {
    t.node == l.node && t.dist == l.dist + 1 && l.dist <= DMSG_SPAN_MAXDIST && t.iocom == w.peer(c)
  }

  /** The sender still relays the SPAN. */
  ghost predicate Sourced(w: Wires, x: Net, t: Link) {
    exists l {:trigger Relaying(w, x, w.peer(t.iocom), l)} :: Relaying(w, x, w.peer(t.iocom), l) && x.out(w.peer(t.iocom), l) == t
  }

  /** A received SPAN has its source, or its end is under way. */
  ghost predicate SpanOk(w: Wires, x: Net, t: Link) {
    var s := x.chan(w.peer(t.iocom));
    t.dist <= DMSG_SPAN_MAXDIST + 1 && (Sourced(w, x, t) || Ends(s, t, 0, |s|))
  }

  /** One under way, at position `i`. */
  ghost predicate BeginOk(w: Wires, x: Net, c: nat, i: nat, t: Link) {
    t.iocom == w.peer(c) && t.dist <= DMSG_SPAN_MAXDIST + 1 && (Sourced(w, x, t) || Ends(x.chan(c), t, i + 1, |x.chan(c)|))
  }

  /** On a broken iocom the SPANs end, and the other side will hear of it. */
  ghost predicate DeadOk(w: Wires, x: Net, q: nat) {
    && EndsAll(w, x, q, x.chan(w.peer(q)))
    && (w.peer(q) !in x.dead ==> x.chan(q) != [] && x.chan(q)[|x.chan(q)| - 1] == Eof)
  }

  ghost predicate Inv(w: Wires, x: Net) {
    && w.Valid()
    && DaemonsOk(w, x)
    && (forall c, l {:trigger Relaying(w, x, c, l)} :: Relaying(w, x, c, l) ==> Carries(w, c, l, x.out(c, l)))
    && (forall t {:trigger Live(w, x, t)} :: Live(w, x, t) && t !in x.announced ==> SpanOk(w, x, t))
    && (forall c, i {:trigger x.chan(c)[i]} :: 0 <= i < |x.chan(c)| && x.chan(c)[i].Begin? ==> BeginOk(w, x, c, i, x.chan(c)[i].span))
    && (forall q {:trigger q in x.dead} :: q in x.dead ==> DeadOk(w, x, q))
  }

  /** A relay that was there still is, and sent what it sent. */
  ghost predicate KeepsRelays(w: Wires, x: Net, y: Net) {
    forall c, l {:trigger Relaying(w, x, c, l)} {:trigger Relaying(w, y, c, l)} ::
      Relaying(w, x, c, l) ==> Relaying(w, y, c, l) && y.out(c, l) == x.out(c, l)
  }

  ghost predicate Extends(x: Net, y: Net) {
    forall c {:trigger x.chan(c)} {:trigger y.chan(c)} :: x.chan(c) <= y.chan(c)
  }

  lemma StillSourced(w: Wires, x: Net, y: Net, t: Link)
    requires KeepsRelays(w, x, y) && Sourced(w, x, t)
    ensures Sourced(w, y, t)
  {
    var l :| Relaying(w, x, w.peer(t.iocom), l) && x.out(w.peer(t.iocom), l) == t;
    assert Relaying(w, y, w.peer(t.iocom), l);
  }

  lemma StillOk(w: Wires, x: Net, y: Net, t: Link)
    requires KeepsRelays(w, x, y) && Extends(x, y)
    ensures SpanOk(w, x, t) ==> SpanOk(w, y, t)
    ensures forall c, i :: BeginOk(w, x, c, i, t) ==> BeginOk(w, y, c, i, t)
  {
    if Sourced(w, x, t) { StillSourced(w, x, y, t); }
  }

  /** One daemon changes. */
  lemma TopSet(w: Wires, x: Net, d: nat, t: Topology)
    requires DaemonsOk(w, x) && DaemonOk(w, t, d)
    ensures DaemonsOk(w, SetTop(x, d, t))
    ensures forall l: Link {:trigger Live(w, SetTop(x, d, t), l)} {:trigger Live(w, x, l)} ::
      Live(w, SetTop(x, d, t), l) <==> if w.owner(l.iocom) == d then l in t.relayq else Live(w, x, l)
    ensures forall c, l {:trigger Relaying(w, SetTop(x, d, t), c, l)} {:trigger Relaying(w, x, c, l)} ::
      Relaying(w, SetTop(x, d, t), c, l) <==> if w.owner(c) == d then c in t.conns && l in t.conns[c] else Relaying(w, x, c, l)
  {
    hide DaemonOk;
  }

  /** The links and relays of one daemon are its own. */
  lemma OwnLinks(w: Wires, x: Net, d: nat)
    requires DaemonsOk(w, x)
    ensures DaemonOk(w, x.daemons(d), d)
    ensures forall l: Link {:trigger Live(w, x, l)} :: w.owner(l.iocom) == d ==> (Live(w, x, l) <==> l in x.daemons(d).relayq)
    ensures forall l {:trigger l in x.daemons(d).relayq} :: l in x.daemons(d).relayq ==> w.owner(l.iocom) == d
  {}

  /** A link comes. */
  lemma JoinDaemons(w: Wires, x: Net, l: Link)
    requires DaemonsOk(w, x) && Fresh(x.daemons(w.owner(l.iocom)), l.state)
    ensures DaemonsOk(w, Join(w, x, l))
    ensures forall t {:trigger Live(w, Join(w, x, l), t)} {:trigger Live(w, x, t)} :: Live(w, Join(w, x, l), t) <==> Live(w, x, t) || t == l
    ensures forall c, k {:trigger Relaying(w, Join(w, x, l), c, k)} {:trigger Relaying(w, x, c, k)} ::
      Relaying(w, Join(w, x, l), c, k) <==> Relaying(w, x, c, k)
  {
    var d := w.owner(l.iocom);
    OwnLinks(w, x, d);
    CreatedOk(x.daemons(d), l);
    hide NodesOk, RelaysOk, Insert, DaemonsOk;
    TopSet(w, x, d, Created(x.daemons(d), l));
  }

  /** A link without relays goes. */
  lemma LeaveDaemons(w: Wires, x: Net, l: Link)
    requires DaemonsOk(w, x) && (Live(w, x, l) ==> x.daemons(w.owner(l.iocom)).relayq[l] == {})
    ensures DaemonsOk(w, Leave(w, x, l))
    ensures forall t {:trigger Live(w, Leave(w, x, l), t)} {:trigger Live(w, x, t)} ::
      Live(w, Leave(w, x, l), t) <==> Live(w, x, t) && t != l
    ensures forall c, k {:trigger Relaying(w, Leave(w, x, l), c, k)} {:trigger Relaying(w, x, c, k)} ::
      Relaying(w, Leave(w, x, l), c, k) <==> Relaying(w, x, c, k)
  {
    var d := w.owner(l.iocom);
    OwnLinks(w, x, d);
    if Live(w, x, l) {
      Linked(x.daemons(d), l);
      RemovedOk(x.daemons(d), l);
      hide NodesOk, RelaysOk, Without, DaemonsOk;
      TopSet(w, x, d, Removed(x.daemons(d), l));
      var y := Leave(w, x, l);
      assert DaemonsOk(w, y) by { SameDaemons(w, SetTop(x, d, Removed(x.daemons(d), l)), y); }
      assert forall t {:trigger Live(w, y, t)} :: Live(w, y, t) <==> Live(w, SetTop(x, d, Removed(x.daemons(d), l)), t);
    } else {
      SameDaemons(w, x, Leave(w, x, l));
    }
  }

  lemma SameDaemons(w: Wires, x: Net, y: Net)
    requires x.daemons == y.daemons
    ensures DaemonsOk(w, x) <==> DaemonsOk(w, y)
    ensures forall l {:trigger Live(w, x, l)} {:trigger Live(w, y, l)} :: Live(w, x, l) <==> Live(w, y, l)
    ensures forall c, l {:trigger Relaying(w, x, c, l)} {:trigger Relaying(w, y, c, l)} :: Relaying(w, x, c, l) <==> Relaying(w, y, c, l)
  {
    hide DaemonOk;
  }

  /** A relay comes. */
  lemma GeneratedDaemons(w: Wires, x: Net, c: nat, l: Link)
    requires DaemonsOk(w, x) && c in x.daemons(w.owner(c)).conns && l in x.daemons(w.owner(c)).relayq && !Relaying(w, x, c, l)
    ensures var y := SetTop(x, w.owner(c), Generated(x.daemons(w.owner(c)), c, l));
      && DaemonsOk(w, y)
      && (forall t {:trigger Live(w, y, t)} {:trigger Live(w, x, t)} :: Live(w, y, t) <==> Live(w, x, t))
      && (forall b, k {:trigger Relaying(w, y, b, k)} {:trigger Relaying(w, x, b, k)} ::
            Relaying(w, y, b, k) <==> Relaying(w, x, b, k) || (b == c && k == l))
  {
    var d := w.owner(c);
    OwnLinks(w, x, d);
    GeneratedOk(x.daemons(d), c, l);
    hide NodesOk, RelaysOk, Insert, DaemonsOk;
    TopSet(w, x, d, Generated(x.daemons(d), c, l));
  }

  /** A relay goes. */
  lemma DeletedDaemons(w: Wires, x: Net, c: nat, l: Link)
    requires DaemonsOk(w, x) && Relaying(w, x, c, l) && l in x.daemons(w.owner(c)).relayq
    ensures var y := SetTop(x, w.owner(c), Deleted(x.daemons(w.owner(c)), c, l));
      && DaemonsOk(w, y)
      && (forall t {:trigger Live(w, y, t)} {:trigger Live(w, x, t)} :: Live(w, y, t) <==> Live(w, x, t))
      && (forall b, k {:trigger Relaying(w, y, b, k)} {:trigger Relaying(w, x, b, k)} ::
            Relaying(w, y, b, k) <==> Relaying(w, x, b, k) && (b != c || k != l))
  {
    var d := w.owner(c);
    OwnLinks(w, x, d);
    DeletedOk(x.daemons(d), c, l);
    hide NodesOk, RelaysOk, Without, DaemonsOk;
    TopSet(w, x, d, Deleted(x.daemons(d), c, l));
  }

  /** A step that sends nothing, ends no relay, and adds no relayed SPAN. */
  lemma SilentKeeps(w: Wires, x: Net, y: Net)
    requires Inv(w, x) && DaemonsOk(w, y)
    requires forall c {:trigger y.chan(c)} :: y.chan(c) == x.chan(c)
    requires forall c, l {:trigger Relaying(w, x, c, l)} {:trigger Relaying(w, y, c, l)} ::
      (Relaying(w, x, c, l) <==> Relaying(w, y, c, l)) && y.out(c, l) == x.out(c, l)
    requires y.dead == x.dead
    requires forall t {:trigger Live(w, y, t)} :: Live(w, y, t) && (t !in y.announced || t.iocom in y.dead) ==>
      Live(w, x, t) && (t !in y.announced ==> t !in x.announced)
    ensures Inv(w, y)
  {
    hide DaemonsOk, SpanOk, BeginOk, Carries;
    forall t ensures SpanOk(w, x, t) ==> SpanOk(w, y, t) {
      StillOk(w, x, y, t);
    }
    forall c, i {:trigger y.chan(c)[i]} | 0 <= i < |y.chan(c)| && y.chan(c)[i].Begin? ensures BeginOk(w, y, c, i, y.chan(c)[i].span) {
      assert x.chan(c)[i].Begin?;
      StillOk(w, x, y, x.chan(c)[i].span);
    }
    forall q {:trigger q in y.dead} | q in y.dead ensures DeadOk(w, y, q) {
      assert DeadOk(w, x, q);
    }
  }

  lemma AnnounceKeeps(w: Wires, x: Net, l: Link)
    requires Inv(w, x) && Enabled(w, x, Announce(l))
    ensures Inv(w, Next(w, x, Announce(l)))
  {
    hide DaemonsOk, Carries, SpanOk, BeginOk, DeadOk;
    JoinDaemons(w, x, l);
    SameDaemons(w, Join(w, x, l), Next(w, x, Announce(l)));
    SilentKeeps(w, x, Next(w, x, Announce(l)));
  }

  lemma LeaveKeeps(w: Wires, x: Net, l: Link)
    requires Inv(w, x) && (Live(w, x, l) ==> x.daemons(w.owner(l.iocom)).relayq[l] == {})
    ensures Inv(w, Leave(w, x, l))
  {
    hide DaemonsOk, Carries, SpanOk, BeginOk, DeadOk;
    LeaveDaemons(w, x, l);
    SilentKeeps(w, x, Leave(w, x, l));
  }

  lemma ConnectKeeps(w: Wires, x: Net, s: Step)
    requires Inv(w, x) && Enabled(w, x, s) && (s.Connect? || s.Disconnect?)
    ensures Inv(w, Next(w, x, s))
  {
    var d := w.owner(s.c);
    var t := if s.Connect? then x.daemons(d).(conns := x.daemons(d).conns[s.c := []])
      else x.daemons(d).(conns := x.daemons(d).conns - {s.c});
    OwnLinks(w, x, d);
    assert DaemonOk(w, t, d);
    hide DaemonsOk, DaemonOk, Carries, SpanOk, BeginOk, DeadOk;
    TopSet(w, x, d, t);
    SilentKeeps(w, x, Next(w, x, s));
  }

  /** A message is appended to an open channel, and nowhere else. */
  lemma Sent(w: Wires, x: Net, c: nat, m: Msg)
    ensures Extends(x, Send(w, x, c, m))
    ensures forall d, i {:trigger Send(w, x, c, m).chan(d)[i]} :: 0 <= i < |Send(w, x, c, m).chan(d)| ==>
      if i < |x.chan(d)| then Send(w, x, c, m).chan(d)[i] == x.chan(d)[i] else d == c && Send(w, x, c, m).chan(d)[i] == m
    ensures forall d {:trigger Send(w, x, c, m).chan(d)} :: d in x.dead || w.peer(d) in x.dead ==> Send(w, x, c, m).chan(d) == x.chan(d)
  {}

  lemma DeadKept(w: Wires, x: Net, y: Net)
    requires w.Valid() && y.dead == x.dead && forall q {:trigger q in x.dead} :: q in x.dead ==> DeadOk(w, x, q)
    requires forall d {:trigger y.chan(d)} :: d in x.dead || w.peer(d) in x.dead ==> y.chan(d) == x.chan(d)
    requires forall t {:trigger Live(w, y, t)} :: Live(w, y, t) && t.iocom in x.dead ==> Live(w, x, t)
    ensures forall q {:trigger q in y.dead} :: q in y.dead ==> DeadOk(w, y, q)
  {
    forall q {:trigger q in y.dead} | q in y.dead ensures DeadOk(w, y, q) {
      assert DeadOk(w, x, q) && w.peer(w.peer(q)) == q;
    }
  }

  /** A step that changes relays, and may send one message on iocom `c`. */
  lemma SendKeeps(w: Wires, x: Net, y: Net, c: nat, m: Msg)
    requires Inv(w, x) && DaemonsOk(w, y) && y.dead == x.dead && y.announced == x.announced
    requires forall b, l {:trigger Relaying(w, y, b, l)} :: Relaying(w, y, b, l) ==> Carries(w, b, l, y.out(b, l))
    requires forall t {:trigger Live(w, y, t)} :: Live(w, y, t) ==> Live(w, x, t) && (SpanOk(w, x, t) ==> SpanOk(w, y, t))
    requires forall b, i {:trigger y.chan(b)[i]} :: 0 <= i < |y.chan(b)| ==>
      if i < |x.chan(b)| then y.chan(b)[i] == x.chan(b)[i] else b == c && y.chan(b)[i] == m
    requires forall b, i, t {:trigger BeginOk(w, x, b, i, t)} ::
      0 <= i < |x.chan(b)| && x.chan(b)[i] == Begin(t) && BeginOk(w, x, b, i, t) ==> BeginOk(w, y, b, i, t)
    requires m.Begin? ==> m.span.iocom == w.peer(c) && m.span.dist <= DMSG_SPAN_MAXDIST + 1 && Sourced(w, y, m.span)
    requires forall d {:trigger y.chan(d)} :: d in x.dead || w.peer(d) in x.dead ==> y.chan(d) == x.chan(d)
    ensures Inv(w, y)
  {
    hide DaemonsOk, SpanOk, DeadOk, Sourced, Carries, Live, Relaying, Ends;
    DeadKept(w, x, y);
    forall b, i {:trigger y.chan(b)[i]} | 0 <= i < |y.chan(b)| && y.chan(b)[i].Begin? ensures BeginOk(w, y, b, i, y.chan(b)[i].span) {
      if i < |x.chan(b)| {
        assert x.chan(b)[i] == Begin(y.chan(b)[i].span);
        assert BeginOk(w, x, b, i, y.chan(b)[i].span);
      }
    }
  }

  lemma RelayFacts(w: Wires, x: Net, s: Step, y: Net)
    requires DaemonsOk(w, x) && s.Relay? && Enabled(w, x, s) && y == Next(w, x, s)
    ensures DaemonsOk(w, y) && y.dead == x.dead && y.announced == x.announced
    ensures forall b {:trigger y.owed(b)} :: y.owed(b) == x.owed(b)
    ensures forall t {:trigger Live(w, y, t)} {:trigger Live(w, x, t)} :: Live(w, y, t) <==> Live(w, x, t)
    ensures forall b, k {:trigger Relaying(w, y, b, k)} {:trigger Relaying(w, x, b, k)} ::
      (Relaying(w, y, b, k) <==> Relaying(w, x, b, k) || (b == s.c && k == s.l))
    ensures forall b, k {:trigger y.out(b, k)} ::
      y.out(b, k) == if b == s.c && k == s.l then Relayed(s.l, s.rnss, s.state, w.peer(s.c)) else x.out(b, k)
    ensures Extends(x, y) && forall b, i {:trigger y.chan(b)[i]} :: 0 <= i < |y.chan(b)| ==>
      if i < |x.chan(b)| then y.chan(b)[i] == x.chan(b)[i]
      else b == s.c && y.chan(b)[i] == Begin(Relayed(s.l, s.rnss, s.state, w.peer(s.c)))
    ensures forall b {:trigger y.chan(b)} :: b in x.dead || w.peer(b) in x.dead ==> y.chan(b) == x.chan(b)
  {
    var d := w.owner(s.c);
    var z := SetTop(x, d, Generated(x.daemons(d), s.c, s.l));
    hide DaemonsOk;
    GeneratedDaemons(w, x, s.c, s.l);
    SameDaemons(w, z, y);
    Sent(w, z.(out := y.out), s.c, Begin(Relayed(s.l, s.rnss, s.state, w.peer(s.c))));
    hide Generated, Relaying, Live, Send;
  }

  lemma RelayKeeps(w: Wires, x: Net, s: Step)
    requires Inv(w, x) && Enabled(w, x, s) && s.Relay?
    ensures Inv(w, Next(w, x, s))
  {
    var t, y := Relayed(s.l, s.rnss, s.state, w.peer(s.c)), Next(w, x, s);
    RelayFacts(w, x, s, y);
    assert w.peer(w.peer(s.c)) == s.c && s.l.dist <= DMSG_SPAN_MAXDIST;
    assert !Relaying(w, x, s.c, s.l);
    hide DaemonsOk, SpanOk, Ends, DeadOk, BeginOk, Next, Enabled, Relaying, Live;
    assert Relaying(w, y, s.c, s.l) && Sourced(w, y, t);
    assert KeepsRelays(w, x, y);
    hide Sourced, KeepsRelays;
    forall k ensures SpanOk(w, x, k) ==> SpanOk(w, y, k) {
      StillOk(w, x, y, k);
    }
    forall b, i, k {:trigger BeginOk(w, x, b, i, k)} | BeginOk(w, x, b, i, k) ensures BeginOk(w, y, b, i, k) {
      StillOk(w, x, y, k);
    }
    SendKeeps(w, x, y, s.c, Begin(t));
  }

  lemma DropFacts(w: Wires, x: Net, s: Step, y: Net)
    requires DaemonsOk(w, x) && s.Drop? && Enabled(w, x, s) && y == Next(w, x, s)
    ensures DaemonsOk(w, y) && y.dead == x.dead && y.announced == x.announced
    ensures forall b {:trigger y.owed(b)} :: y.owed(b) == x.owed(b)
    ensures forall t {:trigger Live(w, y, t)} {:trigger Live(w, x, t)} :: Live(w, y, t) <==> Live(w, x, t)
    ensures forall b, k {:trigger Relaying(w, y, b, k)} {:trigger Relaying(w, x, b, k)} ::
      (Relaying(w, y, b, k) <==> Relaying(w, x, b, k) && (b != s.c || k != s.l)) && y.out(b, k) == x.out(b, k)
    ensures Extends(x, y) && forall b, i {:trigger y.chan(b)[i]} :: 0 <= i < |y.chan(b)| ==>
      if i < |x.chan(b)| then y.chan(b)[i] == x.chan(b)[i] else b == s.c && y.chan(b)[i] == End(x.out(s.c, s.l))
    ensures forall b {:trigger y.chan(b)} :: b in x.dead || w.peer(b) in x.dead ==> y.chan(b) == x.chan(b)
    ensures Open(w, x, s.c) ==> y.chan(s.c) == x.chan(s.c) + [End(x.out(s.c, s.l))]
  {
    var d := w.owner(s.c);
    var z := SetTop(x, d, Deleted(x.daemons(d), s.c, s.l));
    hide DaemonsOk;
    DeletedDaemons(w, x, s.c, s.l);
    SameDaemons(w, z, y);
    Sent(w, z, s.c, End(x.out(s.c, s.l)));
    hide Deleted, Relaying, Live, Send;
  }

  /** When a relay ends, the SPAN that it sent is ending. */
  lemma DropEnds(w: Wires, x: Net, y: Net, c: nat, l: Link, t: Link)
    requires Inv(w, x) && Relaying(w, x, c, l)
    requires forall b, k {:trigger Relaying(w, y, b, k)} {:trigger Relaying(w, x, b, k)} ::
      (Relaying(w, y, b, k) <==> Relaying(w, x, b, k) && (b != c || k != l)) && y.out(b, k) == x.out(b, k)
    requires Extends(x, y) && (Open(w, x, c) ==> y.chan(c) == x.chan(c) + [End(x.out(c, l))])
    ensures Live(w, x, t) && SpanOk(w, x, t) ==> SpanOk(w, y, t)
    ensures forall b, i :: 0 <= i < |x.chan(b)| && x.chan(b)[i] == Begin(t) && BeginOk(w, x, b, i, t) ==> BeginOk(w, y, b, i, t)
  {
    hide DaemonsOk, Live, Relaying;
    var s := y.chan(c);
    if Sourced(w, x, t) && !Sourced(w, y, t) {
      assert t == x.out(c, l) && w.peer(t.iocom) == c;
      assert w.peer(w.peer(c)) == c;
      if Open(w, x, c) {
        assert s[|s| - 1] == End(t);
      } else if w.peer(c) in x.dead {
        assert DeadOk(w, x, w.peer(c));
        assert Live(w, x, t) ==> End(t) in x.chan(c);
      } else {
        assert DeadOk(w, x, c);
        assert x.chan(c)[|x.chan(c)| - 1] == Eof;
      }
    }
  }

  lemma DropKeeps(w: Wires, x: Net, s: Step)
    requires Inv(w, x) && Enabled(w, x, s) && s.Drop?
    ensures Inv(w, Next(w, x, s))
  {
    var y := Next(w, x, s);
    DropFacts(w, x, s, y);
    assert Relaying(w, x, s.c, s.l);
    hide DaemonsOk, SpanOk, Ends, DeadOk, BeginOk, Next, Enabled, Relaying, Live, Sourced, Carries;
    forall k
      ensures Live(w, x, k) && SpanOk(w, x, k) ==> SpanOk(w, y, k)
      ensures forall b, i :: 0 <= i < |x.chan(b)| && x.chan(b)[i] == Begin(k) && BeginOk(w, x, b, i, k) ==> BeginOk(w, y, b, i, k)
    {
      DropEnds(w, x, y, s.c, s.l, k);
    }
    SendKeeps(w, x, y, s.c, End(x.out(s.c, s.l)));
  }

  /** The first message of a channel was handled, and was not the end of the connection. */
  ghost predicate Handled(w: Wires, x: Net, y: Net, c: nat) {
    && x.chan(c) != [] && !x.chan(c)[0].Eof? && y.dead == x.dead && y.announced <= x.announced
    && (forall b {:trigger y.chan(b)} :: y.chan(b) == if b == c then x.chan(c)[1..] else x.chan(b))
    && (forall b, k {:trigger Relaying(w, y, b, k)} {:trigger Relaying(w, x, b, k)} ::
          (Relaying(w, y, b, k) <==> Relaying(w, x, b, k)) && y.out(b, k) == x.out(b, k))
    && (forall k {:trigger Live(w, y, k)} :: Live(w, y, k) ==>
          if Live(w, x, k) then k in x.announced ==> k in y.announced else x.chan(c)[0] == Begin(k))
    && (x.chan(c)[0].End? ==> !Live(w, y, x.chan(c)[0].span))
  }

  lemma HandledSpan(w: Wires, x: Net, y: Net, c: nat, t: Link)
    requires w.Valid() && Handled(w, x, y, c) && Live(w, y, t)
    ensures SpanOk(w, x, t) ==> SpanOk(w, y, t)
    ensures BeginOk(w, x, c, 0, t) ==> SpanOk(w, y, t)
  {
    hide Live, Relaying;
    var s := x.chan(c);
    assert w.peer(w.peer(c)) == c;
    if Sourced(w, x, t) {
      StillSourced(w, x, y, t);
    } else if w.peer(t.iocom) == c {
      if j :| 0 <= j < |s| && (s[j] == End(t) || s[j] == Eof) {
        assert j > 0 ==> y.chan(c)[j - 1] == s[j];
        assert y.chan(c) == s[1..];
      }
    }
  }

  lemma HandledBegin(w: Wires, x: Net, y: Net, b: nat, i: nat, c: nat)
    requires w.Valid() && Handled(w, x, y, c) && i < |y.chan(b)|
    ensures i < |x.chan(b)|
    ensures var k := if b == c then i + 1 else i;
      k < |x.chan(b)| && x.chan(b)[k] == y.chan(b)[i] &&
      forall t :: BeginOk(w, x, b, k, t) ==> BeginOk(w, y, b, i, t)
  {
    hide Live, Relaying;
    var s := x.chan(b);
    var k := if b == c then i + 1 else i;
    forall t | BeginOk(w, x, b, k, t) ensures BeginOk(w, y, b, i, t) {
      if Sourced(w, x, t) {
        StillSourced(w, x, y, t);
      } else {
        var j :| k + 1 <= j < |s| && (s[j] == End(t) || s[j] == Eof);
        assert y.chan(b)[if b == c then j - 1 else j] == s[j];
      }
    }
  }

  lemma HandledDead(w: Wires, x: Net, y: Net, c: nat, q: nat)
    requires Inv(w, x) && Handled(w, x, y, c) && q in x.dead
    ensures DeadOk(w, y, q)
  {
    hide DaemonsOk, Live, Relaying, Carries, SpanOk, Sourced, Ends;
    assert DeadOk(w, x, q) && w.peer(w.peer(q)) == q && w.peer(w.peer(c)) == c;
    var s := x.chan(w.peer(q));
    assert x.chan(c)[0].Begin? ==> BeginOk(w, x, c, 0, x.chan(c)[0].span);
    forall t {:trigger Live(w, y, t)} | Live(w, y, t) && t.iocom == q ensures End(t) in y.chan(w.peer(q)) {
      if w.peer(q) == c {
        assert s[0].End?;
        assert Live(w, x, t) && End(t) in s;
        var j :| 0 <= j < |s| && s[j] == End(t);
        assert j > 0 && s[1..][j - 1] == End(t);
      }
    }
  }

  lemma HandledKeeps(w: Wires, x: Net, y: Net, c: nat)
    requires Inv(w, x) && DaemonsOk(w, y) && Handled(w, x, y, c)
    ensures Inv(w, y)
  {
    hide DaemonsOk, Live, Relaying, Carries, SpanOk, DeadOk;
    assert x.chan(c)[0].Begin? ==> BeginOk(w, x, c, 0, x.chan(c)[0].span);
    hide BeginOk;
    forall t {:trigger Live(w, y, t)} | Live(w, y, t) && t !in y.announced ensures SpanOk(w, y, t) {
      HandledSpan(w, x, y, c, t);
    }
    forall b, i {:trigger y.chan(b)[i]} | 0 <= i < |y.chan(b)| && y.chan(b)[i].Begin? ensures BeginOk(w, y, b, i, y.chan(b)[i].span) {
      HandledBegin(w, x, y, b, i, c);
    }
    forall q {:trigger q in y.dead} | q in y.dead ensures DeadOk(w, y, q) {
      HandledDead(w, x, y, c, q);
    }
  }

  /** A SPAN arrives, or its end does. */
  lemma ReceiveKeeps(w: Wires, x: Net, s: Step)
    requires Inv(w, x) && s.Deliver? && Enabled(w, x, s) && !x.chan(s.c)[0].Eof?
    ensures Handled(w, x, Next(w, x, s), s.c) && Inv(w, Next(w, x, s))
  {
    hide DaemonsOk, Carries, SpanOk, DeadOk, BeginOk;
    var y, t := Next(w, x, s), x.chan(s.c)[0].span;
    if x.chan(s.c)[0].Begin? {
      SameDaemons(w, x, Pop(x, s.c));
      JoinDaemons(w, Pop(x, s.c), t);
    } else {
      LeaveDaemons(w, x, t);
      SameDaemons(w, Leave(w, x, t), y);
    }
    hide Live, Relaying, Leave, Join;
    HandledKeeps(w, x, y, s.c);
  }

  /** A broken iocom: its own SPANs end, and its peer's will. */
  lemma BreakSpan(w: Wires, x: Net, c: nat, kept: nat, ends: seq<Msg>, t: Link)
    requires Inv(w, x) && c !in x.dead && kept <= |x.chan(c)| && EndsAll(w, x, c, ends)
    ensures Live(w, x, t) && SpanOk(w, x, t) ==> SpanOk(w, Break(w, x, c, kept, ends), t)
  {
    var y := Break(w, x, c, kept, ends);
    SameDaemons(w, x, y);
    hide DaemonsOk, Live, Relaying, Carries, DeadOk;
    assert KeepsRelays(w, x, y);
    assert w.peer(w.peer(c)) == c;
    var p := w.peer(c);
    if Live(w, x, t) && SpanOk(w, x, t) {
      if Sourced(w, x, t) {
        StillSourced(w, x, y, t);
      } else if w.peer(t.iocom) == c && p !in x.dead {
        assert y.chan(c)[kept] == Eof;
      } else if w.peer(t.iocom) == p {
        assert w.peer(w.peer(t.iocom)) == t.iocom;
        assert End(t) in ends && y.chan(p) == ends;
      }
    }
  }

  /** What is left on the channels is still announced, or ends with them. */
  lemma BreakBegin(w: Wires, x: Net, c: nat, kept: nat, ends: seq<Msg>, t: Link)
    requires Inv(w, x) && c !in x.dead && kept <= |x.chan(c)| && EndsAll(w, x, c, ends)
    ensures forall b, i: nat {:trigger Break(w, x, c, kept, ends).chan(b)[i]} :: i < |Break(w, x, c, kept, ends).chan(b)| ==>
      Break(w, x, c, kept, ends).chan(b)[i] == Begin(t) ==> BeginOk(w, Break(w, x, c, kept, ends), b, i, t)
  {
    var y := Break(w, x, c, kept, ends);
    SameDaemons(w, x, y);
    hide DaemonsOk, Live, Relaying, Carries, DeadOk;
    assert KeepsRelays(w, x, y);
    assert w.peer(w.peer(c)) == c;
    var p := w.peer(c);
    forall b, i: nat {:trigger y.chan(b)[i]} | i < |y.chan(b)| && y.chan(b)[i] == Begin(t) ensures BeginOk(w, y, b, i, t) {
      assert x.chan(b)[i] == Begin(t);
      if Sourced(w, x, t) {
        StillSourced(w, x, y, t);
      } else if b == c && p !in x.dead {
        assert y.chan(c)[kept] == Eof;
      }
    }
  }

  lemma BreakKeeps(w: Wires, x: Net, c: nat, kept: nat, ends: seq<Msg>)
    requires Inv(w, x) && c !in x.dead && kept <= |x.chan(c)| && EndsAll(w, x, c, ends)
    ensures Inv(w, Break(w, x, c, kept, ends))
  {
    var y := Break(w, x, c, kept, ends);
    SameDaemons(w, x, y);
    hide DaemonsOk, Live, Relaying, Carries, SpanOk, BeginOk;
    forall t {:trigger Live(w, y, t)} | Live(w, y, t) && t !in y.announced ensures SpanOk(w, y, t) {
      BreakSpan(w, x, c, kept, ends, t);
    }
    forall b, i {:trigger y.chan(b)[i]} | 0 <= i < |y.chan(b)| && y.chan(b)[i].Begin? ensures BeginOk(w, y, b, i, y.chan(b)[i].span) {
      BreakBegin(w, x, c, kept, ends, y.chan(b)[i].span);
    }
    assert w.peer(w.peer(c)) == c;
    forall q {:trigger q in y.dead} | q in y.dead ensures DeadOk(w, y, q) {
      assert w.peer(w.peer(q)) == q;
      assert q != c ==> DeadOk(w, x, q);
    }
  }

  /** Every step keeps it: a received SPAN that no end system announced is still relayed by
      its sender, or its end is under way. */
  lemma StepKeeps(w: Wires, x: Net, s: Step)
    requires Inv(w, x) && Enabled(w, x, s)
    ensures Inv(w, Next(w, x, s))
  {
    match s
    case Announce(l) => AnnounceKeeps(w, x, l);
    case Withdraw(l) => LeaveKeeps(w, x, l);
    case Connect(_) => ConnectKeeps(w, x, s);
    case Disconnect(_) => ConnectKeeps(w, x, s);
    case Relay(_, _, _, _) => RelayKeeps(w, x, s);
    case Drop(_, _) => DropKeeps(w, x, s);
    case Fail(c, kept, ends) => BreakKeeps(w, x, c, kept, ends);
    case Deliver(c, ends) =>
      if x.chan(c)[0].Eof? {
        EofAlive(w, x, c);
        BreakKeeps(w, x, w.peer(c), |x.chan(w.peer(c))|, ends);
      } else {
        ReceiveKeeps(w, x, s);
      }
  }

  lemma EofAlive(w: Wires, x: Net, c: nat)
    requires Inv(w, x) && x.chan(c) != [] && x.chan(c)[0].Eof?
    ensures w.peer(c) !in x.dead
  {
    assert w.peer(w.peer(c)) == c;
    assert w.peer(c) in x.dead ==> DeadOk(w, x, w.peer(c));
  }

  /** No daemon knows anything yet. */
  ghost function Init(): Net {
    Net((d: nat) => Topology(map[], map[], map[]), (c: nat) => [], (c: nat, l: Link) => l, {}, {}, (c: nat) => 0)
  }

  /** A run; a step that is not possible is skipped. */
  ghost function Exec(w: Wires, x: Net, steps: seq<Step>): Net
    decreases |steps|
  {
    if steps == [] then x else Exec(w, if Enabled(w, x, steps[0]) then Next(w, x, steps[0]) else x, steps[1..])
  }

  lemma {:induction false} RunKeeps(w: Wires, x: Net, steps: seq<Step>)
    requires Inv(w, x)
    ensures Inv(w, Exec(w, x, steps))
    decreases |steps|
  {
    hide Inv, Next, Enabled;
    if steps != [] {
      if Enabled(w, x, steps[0]) {
        StepKeeps(w, x, steps[0]);
      }
      RunKeeps(w, if Enabled(w, x, steps[0]) then Next(w, x, steps[0]) else x, steps[1..]);
    }
  }

  /** `l`, received by the daemon that sent `t`, is what `t` relays. */
  ghost predicate Source(w: Wires, x: Net, l: Link, t: Link) {
    Relaying(w, x, w.peer(t.iocom), l) && x.out(w.peer(t.iocom), l) == t
  }

  /** In every reachable state a relayed SPAN has a source that is itself there, leads to the same
      node and is one nearer, or its end is under way. */
  lemma LiveSource(w: Wires, steps: seq<Step>, t: Link)
    requires w.Valid() && Live(w, Exec(w, Init(), steps), t) && t !in Exec(w, Init(), steps).announced
    ensures var x := Exec(w, Init(), steps);
      || Ends(x.chan(w.peer(t.iocom)), t, 0, |x.chan(w.peer(t.iocom))|)
      || exists l :: Source(w, x, l, t) && Live(w, x, l) && l.node == t.node && t.dist == l.dist + 1 <= DMSG_SPAN_MAXDIST + 1
  {
    assert Inv(w, Init());
    RunKeeps(w, Init(), steps);
    var x := Exec(w, Init(), steps);
    if Sourced(w, x, t) {
      var l :| Relaying(w, x, w.peer(t.iocom), l) && x.out(w.peer(t.iocom), l) == t;
      SourceLive(w, x, l, t);
    }
  }

  lemma SourceLive(w: Wires, x: Net, l: Link, t: Link)
    requires Inv(w, x) && Source(w, x, l, t)
    ensures Live(w, x, l) && l.node == t.node && t.dist == l.dist + 1 <= DMSG_SPAN_MAXDIST + 1
  {
    OwnLinks(w, x, w.owner(w.peer(t.iocom)));
  }

  /** `t` relays `l` in `n` hops, all of them there. */
  ghost predicate Upstream(w: Wires, x: Net, l: Link, t: Link, n: nat)
    decreases n
  {
    if n == 0 then l == t else exists k :: Source(w, x, k, t) && Upstream(w, x, l, k, n - 1)
  }

  /** No chain of relays is longer than 17, and no SPAN is, directly or indirectly, its own source. */
  lemma {:induction false} NoLoop(w: Wires, x: Net, l: Link, t: Link, n: nat)
    requires Inv(w, x) && Upstream(w, x, l, t, n)
    ensures l.dist + n == t.dist && l.node == t.node && (n > 0 ==> n <= DMSG_SPAN_MAXDIST + 1 && l != t)
    decreases n
  {
    hide Inv, Source;
    if n > 0 {
      var k :| Source(w, x, k, t) && Upstream(w, x, l, k, n - 1);
      SourceLive(w, x, k, t);
      NoLoop(w, x, l, k, n - 1);
    }
  }
}
