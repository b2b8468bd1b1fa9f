/** State structures and what may point to them. */
module States {
  import opened Endpoint

  /** How an operation ended: done, the message thrown away, or an assertion failed. */
  datatype Verdict = Done | Thrown | Failed

  /** The fields are now what the specification says. */
  ghost predicate Did(v: Verdict, r: Result<End>, now: End) {
    match r
    case Ok(e) => v == Done && now == e
    case Discard(e) => v == Thrown && now == e
    case Fault => v == Failed
  }

  lemma NoNames()
    ensures NamesOf({}) == {}
  {}

  ghost function NamesOf(q: set<State>): set<Name> { set s | s in q :: s.name }

  /** A transaction state (`dmsg_state_t`).  The name says which transaction it is. */
  class State {
    ghost const name: Name
    const msgid: nat
    const parent: State?
    /** Opened by the peer. */
    const opposite: bool
    var txcmd: Cmd
    var rxcmd: Cmd
    var inTree: bool
    var inSubq: bool
    var subq: set<State>
    var refs: int

    constructor (ghost name: Name, msgid: nat, parent: State?, opposite: bool, txcmd: Cmd, rxcmd: Cmd)
      ensures this.name == name && this.msgid == msgid && this.parent == parent && this.opposite == opposite
      ensures Now() == St(txcmd, rxcmd, false, false, {}, 1) && subq == {}
    {
      this.name, this.msgid, this.parent, this.opposite := name, msgid, parent, opposite;
      this.txcmd, this.rxcmd := txcmd, rxcmd;
      inTree, inSubq, subq, refs := false, false, {}, 1;
    }

    ghost function Now(): St
      reads this
    {
      St(txcmd, rxcmd, inTree, inSubq, NamesOf(subq), refs)
    }

    lemma SubqEmpty()
      ensures Now().subq == {} <==> subq == {}
    {
      if subq != {} {
        var s :| s in subq;
        assert s.name in NamesOf(subq);
      }
    }
  }

  /** The header of a message. */
  datatype Head = Head(cmd: Cmd, id: nat, circuit: nat, revtrans: bool, revcirc: bool)

  /** The message of the specification, which also says whose it is. */
  ghost function MsgFrom(sender: Name, h: Head): Msg { Msg(sender, h.cmd, h.id, h.circuit, h.revtrans, h.revcirc) }

  /** A queued message and the state that it holds. */
  datatype Entry = Entry(state: State, head: Head)

  ghost function Ids(tree: map<nat, State>): map<nat, Name> { map i | i in tree :: tree[i].name }

  ghost function Heads(q: seq<Entry>): (r: seq<Msg>)
    ensures |r| == |q|
  {
    seq(|q|, i requires 0 <= i < |q| => MsgFrom(q[i].state.name, q[i].head))
  }

  ghost function Names(q: seq<State>): (r: seq<Name>)
    ensures |r| == |q|
  {
    seq(|q|, i requires 0 <= i < |q| => q[i].name)
  }

  /** A pointer to a state that is allocated points to it. */
  ghost predicate Known(states: map<Name, State>, s: State) { s.name in states ==> states[s.name] == s }

  ghost predicate KnownTree(states: map<Name, State>, tree: map<nat, State>) {
    forall i {:trigger tree[i]} :: i in tree ==> Known(states, tree[i])
  }

  ghost predicate KnownQueue(states: map<Name, State>, q: seq<Entry>) {
    forall i {:trigger q[i]} :: 0 <= i < |q| ==> Known(states, q[i].state)
  }

  ghost predicate KnownSeq(states: map<Name, State>, q: seq<State>) {
    forall i {:trigger q[i]} :: 0 <= i < |q| ==> Known(states, q[i])
  }

  /** Structures are allocated under their names and know their parents. */
  ghost predicate Named(me: Side, root: State, states: map<Name, State>) {
    && root.name == Root && WellNamed(me, root) && root.parent == null && Known(states, root)
    && forall n {:trigger states[n]} :: n in states ==> NamedAs(me, states, states[n], n)
  }

  ghost predicate NamedAs(me: Side, states: map<Name, State>, s: State, n: Name) {
    && s.name == n && WellNamed(me, s)
    && (n.Name? ==> s.parent != null && s.parent.name == n.parent && WellNamed(me, s.parent) && Known(states, s.parent))
  }

  /** What a structure says of its transaction. */
  ghost predicate WellNamed(me: Side, s: State) {
    s.msgid == MsgId(s.name) && s.opposite == (s.name.Name? && s.name.side != me)
  }

  /** Freeing a structure leaves no pointer wrong. */
  lemma KnownFewer(me: Side, root: State, states: map<Name, State>, t: Name)
    requires Named(me, root, states)
    ensures Named(me, root, states - {t})
    ensures forall tree {:trigger KnownTree(states - {t}, tree)} :: KnownTree(states, tree) ==> KnownTree(states - {t}, tree)
    ensures forall q {:trigger KnownQueue(states - {t}, q)} :: KnownQueue(states, q) ==> KnownQueue(states - {t}, q)
    ensures forall q {:trigger KnownSeq(states - {t}, q)} :: KnownSeq(states, q) ==> KnownSeq(states - {t}, q)
  {}

  ghost predicate UnusedIn(name: Name, tree: map<nat, Name>) { forall i {:trigger tree[i]} :: i in tree ==> tree[i] != name }

  /** A structure is allocated under a name that no pointer has. */
  lemma KnownMore(me: Side, root: State, states: map<Name, State>, t: State)
    requires Named(me, root, states) && t.name !in states && t.name.Name? && t.msgid == t.name.id && t.opposite == (t.name.side != me)
    requires t.parent != null && t.parent.name == t.name.parent && t.parent.name in states && states[t.parent.name] == t.parent
    requires forall n {:trigger states[n]} :: n in states && n.Name? ==> n.parent != t.name
    ensures Named(me, root, states[t.name := t])
  {}

  lemma SubSelf(a: map<Name, State>)
    ensures Sub(a, a)
  {}

  lemma SubLess(a: map<Name, State>, t: Name)
    ensures Sub(a, a) && Sub(a - {t}, a)
  {}

  lemma SubTrans(a: map<Name, State>, b: map<Name, State>, c: map<Name, State>)
    requires Sub(a, b) && Sub(b, c)
    ensures Sub(a, c)
  {}

  /** Nothing was allocated since. */
  ghost predicate Sub(now: map<Name, State>, was: map<Name, State>) {
    forall n {:trigger n in now} {:trigger now[n]} :: n in now ==> n in was && now[n] == was[n]
  }
}
