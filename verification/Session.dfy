/** What two endpoints and the messages between them agree on, for the transactions that one
    side has opened. */
module Session {
  import opened Endpoint
  import opened Safety

  /** Side `s` with its open transactions, those open at its peer, all states that exist
      there, what `s` has sent and the peer not received yet, and the other way round.  Nothing
      is promised about the parents of the transactions in `skip`. */
  datatype Dir = Dir(s: Side, mine: map<Name, Bits>, theirs: map<Name, Bits>, keys: set<Name>, out: seq<Msg>, back: seq<Msg>,
                     skip: set<Name>)

  // ---------------------------------------------------------------- one direction of one transaction

  /** The messages of `t` in `q` take the receiver, at `rx`, to where the sender is, `tx`:
      CREATE comes first and only once, nothing follows DELETE. */
  ghost predicate Stream(rx: Cmd, q: seq<Msg>, t: Name, tx: Cmd)
    decreases |q|
  {
    if q == [] then rx.create == tx.create && rx.del == tx.del
    else if q[0].ref != t then Stream(rx, q[1..], t, tx)
    else !rx.del && q[0].cmd.create == !rx.create && Stream(rx.(create := true, del := q[0].cmd.del), q[1..], t, tx)
  }

  /** No message of `t` is under way. */
  ghost predicate Quiet(q: seq<Msg>, t: Name) { forall i :: 0 <= i < |q| ==> q[i].ref != t }

  lemma {:induction false} StreamAppend(rx: Cmd, q: seq<Msg>, t: Name, tx: Cmd, m: Msg)
    ensures Stream(rx, q, t, tx) && m.ref != t ==> Stream(rx, q + [m], t, tx)
    ensures Stream(rx, q, t, tx) && m.ref == t && !tx.del && m.cmd.create == !tx.create ==>
      Stream(rx, q + [m], t, tx.(create := true, del := m.cmd.del))
    decreases |q|
  {
    if q != [] {
      assert (q + [m])[1..] == q[1..] + [m];
      StreamAppend(if q[0].ref != t then rx else rx.(create := true, del := q[0].cmd.del), q[1..], t, tx, m);
    } else {
      assert (q + [m])[1..] == [];
    }
  }

  lemma {:induction false} StreamQuiet(rx: Cmd, q: seq<Msg>, t: Name, tx: Cmd)
    ensures Quiet(q, t) && rx.create == tx.create && rx.del == tx.del ==> Stream(rx, q, t, tx)
    ensures Quiet(q, t) && Stream(rx, q, t, tx) ==> rx.create == tx.create && rx.del == tx.del
    ensures rx.del && Stream(rx, q, t, tx) ==> Quiet(q, t) && tx.del && tx.create == rx.create
    ensures !tx.create && Stream(rx, q, t, tx) ==> Quiet(q, t)
    decreases |q|
  {
    if q != [] {
      assert Quiet(q, t) ==> Quiet(q[1..], t);
      StreamQuiet(if q[0].ref != t then rx else rx.(create := true, del := q[0].cmd.del), q[1..], t, tx);
      if q[0].ref != t && Quiet(q[1..], t) {
        assert Quiet(q, t) by {
          forall i | 0 <= i < |q| ensures q[i].ref != t {
            if i > 0 {
              assert q[i] == q[1..][i - 1];
            }
          }
        }
      }
    }
  }

  /** As long as the sender has not sent DELETE, none is under way; and if the receiver has
      seen no CREATE that the sender has sent, it is under way. */
  lemma {:induction false} StreamOpen(rx: Cmd, q: seq<Msg>, t: Name, tx: Cmd)
    requires Stream(rx, q, t, tx)
    ensures !tx.del ==> !rx.del && NoDel(t, q)
    ensures tx.create && !rx.create ==> Created(t, q)
    ensures rx.create ==> !Created(t, q)
    decreases |q|
  {
    if q != [] {
      var r := q[1..];
      StreamOpen(if q[0].ref != t then rx else rx.(create := true, del := q[0].cmd.del), r, t, tx);
      if Created(t, r) {
        var i :| 0 <= i < |r| && r[i].ref == t && r[i].cmd.create;
        assert q[i + 1] == r[i];
      }
      forall i | 0 <= i < |q| ensures 0 < i ==> q[i] == r[i - 1] {}
    }
  }

  ghost predicate NoDel(t: Name, q: seq<Msg>) { forall i :: 0 <= i < |q| ==> !(q[i].ref == t && q[i].cmd.del) }

  ghost predicate Created(t: Name, q: seq<Msg>) { exists i :: 0 <= i < |q| && q[i].ref == t && q[i].cmd.create }

  // ---------------------------------------------------------------- invariants

  const NOTHING := Cmd(false, false, false)
  const CLOSED := Cmd(true, true, false)

  /** An open transaction: DELETE only after CREATE, and not in both directions. */
  predicate Good(b: Bits) { (b.rx.del ==> b.rx.create) && (b.tx.del ==> b.tx.create) && !(b.tx.del && b.rx.del) }

  /** A transaction that `s` opened: open on both ends; not yet known, or closed already, at
      the peer; closed at `s`; or gone from both. */
  ghost predicate Agreed(d: Dir, t: Name) {
    (t in d.mine ==> Good(d.mine[t])) && (t in d.theirs ==> Good(d.theirs[t])) &&
    if t in d.mine && t in d.theirs then
      d.theirs[t].rx.create && Stream(d.theirs[t].rx, d.out, t, d.mine[t].tx) && Stream(d.mine[t].rx, d.back, t, d.theirs[t].tx)
    else if t in d.mine then
      || (t !in d.keys && !d.mine[t].rx.create && !d.mine[t].rx.del && Quiet(d.back, t) && Stream(NOTHING, d.out, t, d.mine[t].tx))
      || (Quiet(d.out, t) && d.mine[t].tx.create && d.mine[t].tx.del && Stream(d.mine[t].rx, d.back, t, CLOSED))
    else if t in d.theirs then
      && d.theirs[t].tx.create && d.theirs[t].tx.del && d.theirs[t].rx.create && Quiet(d.back, t)
      && Stream(d.theirs[t].rx, d.out, t, CLOSED)
    else Quiet(d.out, t) && Quiet(d.back, t)
  }

  ghost predicate Streams(d: Dir) {
    forall t: Name {:trigger Agreed(d, t)} :: t.Name? && t.side == d.s ==> Agreed(d, t)
  }

  /** A side keeps a transaction open in its transmit direction while one that it stacked
      under it is open. */
  ghost predicate Under(mine: map<Name, Bits>, s: Side, p: Name) {
    p == Root || (p in mine && !mine[p].tx.del && (p.side == s ==> mine[p].tx.create))
  }

  /** A transaction that `s` has closed and whose DELETE from the peer is under way, with none of
      its parent before it. */
  ghost predicate Settling(d: Dir, t: Name) {
    && t in d.mine && d.mine[t].tx.del && t.Name? && t.parent in d.mine && !d.mine[t.parent].rx.del
    && exists i {:trigger d.back[i]} :: 0 <= i < |d.back| && IsDel(d.back[i], t) && NoDel(t.parent, d.back[..i])
  }

  predicate IsDel(m: Msg, t: Name) { m.ref == t && m.cmd.del }

  ghost predicate StackedAt(d: Dir, t: Name)
    requires t.Name?
  {
    t in d.skip || Under(d.mine, d.s, t.parent) || Settling(d, t)
  }

  ghost predicate Stacked(d: Dir) {
    forall t {:trigger t in d.mine} :: t in d.mine && t.Name? && t.side == d.s ==> StackedAt(d, t)
  }

  /** Behind the messages `q`, the peer has the circuit `p` in a tree. */
  ghost predicate Ready(d: Dir, p: Name, q: seq<Msg>) {
    p == Root || (NoDel(p, q) && ((p in d.theirs && !d.theirs[p].rx.del) || (p.side == d.s && Created(p, q))))
  }

  ghost predicate Own(d: Dir, t: Name) { t.Name? && t.side == d.s }

  ghost predicate Circuits(d: Dir) {
    forall j {:trigger d.out[j]} :: 0 <= j < |d.out| && Own(d, d.out[j].ref) ==> Ready(d, d.out[j].ref.parent, d.out[..j])
  }

  /** A msgid is used again only for a transaction that was opened later. */
  ghost predicate Clash(t: Name, u: Name) { t.Name? && u.Name? && t.side == u.side && t.id == u.id && t != u }

  ghost predicate Before(t: Name, u: Name) { Clash(t, u) ==> t.serial < u.serial }

  ghost predicate Serials(d: Dir) {
    && (forall i, j {:trigger Before(d.out[i].ref, d.out[j].ref)} ::
      0 <= i < j < |d.out| && Own(d, d.out[i].ref) ==> Before(d.out[i].ref, d.out[j].ref))
    && (forall t, j {:trigger Before(t, d.out[j].ref)} :: t in d.theirs && Own(d, t) && 0 <= j < |d.out| ==> Before(t, d.out[j].ref))
    && (forall t, j {:trigger Before(d.out[j].ref, t)} :: t in d.mine && Own(d, t) && 0 <= j < |d.out| ==> Before(d.out[j].ref, t))
    && (forall t, u {:trigger Before(u, t)} :: t in d.mine && Own(d, t) && u in d.theirs ==> Before(u, t))
  }

  /** Two open transactions of one side have different msgids. */
  ghost predicate Unique(d: Dir) {
    forall t, u {:trigger Clash(t, u)} :: t in d.mine && u in d.mine && Own(d, t) ==> !Clash(t, u)
  }

  ghost predicate Proper(t: Name) { t.Root? || (t.id != 0 && Proper(t.parent)) }

  /** The message that side `s` writes on a transaction. */
  function MsgOf(s: Side, t: Name, cmd: Cmd): Msg
    requires t.Name?
  {
    Msg(t, cmd, t.id, MsgId(t.parent), t.side != s, t.parent.Name? && t.parent.side != s)
  }

  /** A message as side `s` writes it. */
  ghost predicate Formed(s: Side, m: Msg) {
    var t := m.ref;
    && Proper(t)
    && if t.Root? then m == Msg(Root, Cmd(false, false, m.cmd.reply), 0, 0, false, false)
       else m == MsgOf(s, t, m.cmd) && m.cmd.reply == (t.side != s)
  }

  ghost predicate AllFormed(d: Dir) { forall j {:trigger d.out[j]} :: 0 <= j < |d.out| ==> Formed(d.s, d.out[j]) }

  ghost predicate Half(d: Dir) {
    Streams(d) && Stacked(d) && Circuits(d) && Serials(d) && Unique(d) && AllFormed(d)
  }

  // ---------------------------------------------------------------- opening

  /** Nobody has seen the name. */
  ghost predicate Unseen(d: Dir, t: Name) {
    && t !in d.mine && t !in d.theirs && t !in d.keys && Quiet(d.out, t) && Quiet(d.back, t)
    && (forall u {:trigger Before(u, t)} :: u in d.theirs ==> Before(u, t))
    && (forall u {:trigger Clash(u, t)} :: u in d.mine ==> !Clash(u, t))
    && (forall j {:trigger d.out[j]} :: 0 <= j < |d.out| ==> Before(d.out[j].ref, t))
  }

  lemma OpenHalf(d: Dir, t: Name)
    requires Half(d) && Own(d, t) && Unseen(d, t) && (Under(d.mine, d.s, t.parent) || t in d.skip)
    ensures Half(d.(mine := d.mine[t := Bits(NOTHING, Cmd(false, false, true))]))
  {
    var d1 := d.(mine := d.mine[t := Bits(NOTHING, Cmd(false, false, true))]);
    forall u: Name {:trigger Agreed(d1, u)} | u.Name? && u.side == d1.s ensures Agreed(d1, u) {
      assert Agreed(d, u);
      StreamQuiet(NOTHING, d.out, t, NOTHING);
    }
    forall u, j {:trigger Before(d1.out[j].ref, u)} | u in d1.mine && Own(d1, u) && 0 <= j < |d1.out| ensures Before(d1.out[j].ref, u) {
      if u != t {
        assert Before(d.out[j].ref, u);
      }
    }
    forall u, v {:trigger Clash(u, v)} | u in d1.mine && v in d1.mine && Own(d1, u) ensures !Clash(u, v) {
      assert !Clash(v, t);
    }
    assert Circuits(d1) by {
      forall j {:trigger d1.out[j]} | 0 <= j < |d1.out| && Own(d1, d1.out[j].ref) ensures Ready(d1, d1.out[j].ref.parent, d1.out[..j]) {
        assert Ready(d, d.out[j].ref.parent, d.out[..j]);
      }
    }
  }

  /** The same, seen from the peer, whose own transactions are not concerned. */
  lemma OpenOther(d: Dir, t: Name, b: Bits)
    requires Half(d) && t.Name? && !Own(d, t) && t !in d.theirs && !b.rx.del
    ensures Half(d.(theirs := d.theirs[t := b]))
  {
    var d1 := d.(theirs := d.theirs[t := b]);
    forall u: Name {:trigger Agreed(d1, u)} | u.Name? && u.side == d1.s ensures Agreed(d1, u) {
      assert Agreed(d, u);
    }
    forall j {:trigger d1.out[j]} | 0 <= j < |d1.out| && Own(d1, d1.out[j].ref) ensures Ready(d1, d1.out[j].ref.parent, d1.out[..j]) {
      assert Ready(d, d.out[j].ref.parent, d.out[..j]);
    }
    forall u, v {:trigger Before(v, u)} | u in d1.mine && Own(d1, u) && v in d1.theirs ensures Before(v, u) {
    }
  }

  /** States of transactions that the other side opened do not matter. */
  lemma KeysChange(d: Dir, keys: set<Name>)
    requires Half(d) && forall u {:trigger u in keys} :: u in keys && Own(d, u) ==> u in d.keys
    ensures Half(d.(keys := keys))
  {
    var d1 := d.(keys := keys);
    forall u: Name {:trigger Agreed(d1, u)} | u.Name? && u.side == d1.s ensures Agreed(d1, u) {
      assert Agreed(d, u);
    }
    forall j {:trigger d1.out[j]} | 0 <= j < |d1.out| && Own(d1, d1.out[j].ref) ensures Ready(d1, d1.out[j].ref.parent, d1.out[..j]) {
      assert Ready(d, d.out[j].ref.parent, d.out[..j]);
    }
  }

  // ---------------------------------------------------------------- sending

  /** Side `s` sends message `m` on an open transaction that it has not closed. */
  ghost predicate MaySend(d: Dir, m: Msg) {
    var t := m.ref;
    && t.Name? && t in d.mine && !d.mine[t].tx.del && m.cmd.create == !d.mine[t].tx.create && Formed(d.s, m)
    && (t.side == d.s ==> t !in d.skip)
    && (m.cmd.del ==> forall u {:trigger u in d.mine} ::
      u in d.mine && u.Name? && u.side == d.s && u.parent == t ==> u in d.skip || Settling(d, u))
  }

  ghost function Sent(mine: map<Name, Bits>, m: Msg): Bits
    requires m.ref in mine
  {
    Bits(mine[m.ref].tx.(create := true, del := m.cmd.del), mine[m.ref].rx)
  }

  lemma AppendRef(q: seq<Msg>, m: Msg, t: Name)
    ensures m.ref != t && Quiet(q, t) ==> Quiet(q + [m], t)
  {}

  /** An own transaction, after a message of it was sent. */
  lemma SendAgreed(d: Dir, m: Msg)
    requires Agreed(d, m.ref) && Own(d, m.ref) && MaySend(d, m)
    ensures Agreed(d.(mine := Become(d.mine, m.ref, Sent(d.mine, m)), out := d.out + [m]), m.ref)
  {
    var t := m.ref;
    var rx := if t in d.theirs then d.theirs[t].rx else NOTHING;
    if t in d.theirs {
      StreamAppend(rx, d.out, t, d.mine[t].tx, m);
      if m.cmd.del {
        StreamSame(rx, d.out + [m], t, Sent(d.mine, m).tx, CLOSED);
      }
      StreamQuiet(d.mine[t].rx, d.back, t, d.theirs[t].tx);
    } else if t !in d.keys && !d.mine[t].rx.create && !d.mine[t].rx.del && Quiet(d.back, t) && Stream(NOTHING, d.out, t, d.mine[t].tx) {
      StreamAppend(rx, d.out, t, d.mine[t].tx, m);
    }
  }

  /** Only the CREATE and DELETE bits matter. */
  lemma {:induction false} StreamSame(rx: Cmd, q: seq<Msg>, t: Name, tx: Cmd, tx': Cmd)
    requires tx.create == tx'.create && tx.del == tx'.del
    ensures Stream(rx, q, t, tx) == Stream(rx, q, t, tx')
    decreases |q|
  {
    if q != [] {
      StreamSame(if q[0].ref != t then rx else rx.(create := true, del := q[0].cmd.del), q[1..], t, tx, tx');
    }
  }

  lemma OtherAgreed(d: Dir, d1: Dir, u: Name, b: Bits, m: Msg)
    requires Agreed(d, u) && u != m.ref && d1 == d.(mine := Become(d.mine, m.ref, b), out := d.out + [m])
    ensures Agreed(d1, u)
  {
    AppendRef(d.out, m, u);
    StreamAppend(if u in d.theirs then d.theirs[u].rx else NOTHING, d.out, u, if u in d.mine then d.mine[u].tx else CLOSED, m);
  }

  /** The circuit of a new message is there when the message arrives. */
  lemma NowReady(d: Dir, e: Dir, p: Name)
    requires Half(d) && Half(e) && e.s == Other(d.s) && e.mine == d.theirs && e.theirs == d.mine && e.out == d.back && e.back == d.out
    requires Under(d.mine, d.s, p)
    ensures Ready(d, p, d.out)
  {
    if p.Name? {
      if p.side == d.s {
        assert Agreed(d, p);
        StreamOpen(if p in d.theirs then d.theirs[p].rx else NOTHING, d.out, p, d.mine[p].tx);
      } else {
        assert Agreed(e, p);
        if p in d.theirs {
          StreamOpen(d.theirs[p].rx, d.out, p, d.mine[p].tx);
        }
      }
    }
  }

  /** Two directions of one connection. */
  ghost predicate Mirror(d: Dir, e: Dir) {
    e.s == Other(d.s) && e.mine == d.theirs && e.theirs == d.mine && e.out == d.back && e.back == d.out && e.skip == d.skip
  }

  ghost function AfterSend(d: Dir, m: Msg): Dir
    requires m.ref in d.mine
  {
    d.(mine := Become(d.mine, m.ref, Sent(d.mine, m)), out := d.out + [m])
  }

  lemma SendCircuits(d: Dir, e: Dir, m: Msg)
    requires Half(d) && Half(e) && Mirror(d, e) && MaySend(d, m)
    ensures Circuits(AfterSend(d, m)) && AllFormed(AfterSend(d, m))
  {
    var d1 := AfterSend(d, m);
    forall j {:trigger d1.out[j]} | 0 <= j < |d1.out| && Own(d1, d1.out[j].ref) ensures Ready(d1, d1.out[j].ref.parent, d1.out[..j]) {
      assert d1.out[..j] == d.out[..j];
      if j < |d.out| {
        assert Ready(d, d.out[j].ref.parent, d.out[..j]);
      } else {
        assert m.ref in d.mine && StackedAt(d, m.ref) && Under(d.mine, d.s, m.ref.parent);
        NowReady(d, e, m.ref.parent);
        assert d.out[..j] == d.out;
      }
    }
  }

  lemma SendSerials(d: Dir, m: Msg)
    requires Serials(d) && Unique(d) && MaySend(d, m)
    ensures Serials(AfterSend(d, m))
  {
    var d1 := AfterSend(d, m);
    forall i, j {:trigger Before(d1.out[i].ref, d1.out[j].ref)} | 0 <= i < j < |d1.out| && Own(d1, d1.out[i].ref)
      ensures Before(d1.out[i].ref, d1.out[j].ref)
    {
      if j < |d.out| {
        assert Before(d.out[i].ref, d.out[j].ref);
      } else {
        assert Before(d.out[i].ref, m.ref);
      }
    }
    forall t, j {:trigger Before(t, d1.out[j].ref)} | t in d1.theirs && Own(d1, t) && 0 <= j < |d1.out| ensures Before(t, d1.out[j].ref) {
      if j < |d.out| {
        assert Before(t, d.out[j].ref);
      } else {
        assert Before(t, m.ref);
      }
    }
    forall t, j {:trigger Before(d1.out[j].ref, t)} | t in d1.mine && Own(d1, t) && 0 <= j < |d1.out| ensures Before(d1.out[j].ref, t) {
      if j < |d.out| {
        assert Before(d.out[j].ref, t);
      } else {
        assert !Clash(t, m.ref);
      }
    }
  }

  /** Sending keeps what both sides agree on, seen from the sender ... */
  lemma SendHalf(d: Dir, e: Dir, m: Msg)
    requires Half(d) && Half(e) && Mirror(d, e) && MaySend(d, m)
    ensures Half(AfterSend(d, m))
  {
    var d1, b := AfterSend(d, m), Sent(d.mine, m);
    forall u: Name {:trigger Agreed(d1, u)} | u.Name? && u.side == d1.s ensures Agreed(d1, u) {
      assert Agreed(d, u);
      if u == m.ref {
        SendAgreed(d, m);
      } else {
        OtherAgreed(d, d1, u, b, m);
      }
    }
    SendCircuits(d, e, m);
    SendSerials(d, m);
    forall t {:trigger t in d1.mine} | t in d1.mine && t.Name? && t.side == d1.s ensures StackedAt(d1, t) {
      assert t in d.mine && StackedAt(d, t);
      SendStacked(d, m, t);
    }
    forall t, u {:trigger Clash(t, u)} | t in d1.mine && u in d1.mine && Own(d1, t) ensures !Clash(t, u) {
      assert t in d.mine && u in d.mine;
    }
  }

  lemma SendStacked(d: Dir, m: Msg, t: Name)
    requires MaySend(d, m) && t in d.mine && Own(d, t) && StackedAt(d, t)
    ensures StackedAt(AfterSend(d, m), t)
  {
    var d1 := AfterSend(d, m);
    if Settling(d, t) {
      assert m.ref != t && Settling(d1, t);
    }
  }

  /** A message behind those that are under way changes nothing for what settles. */
  lemma SettlingMore(d: Dir, d1: Dir, t: Name, m: Msg)
    requires t.Name? && d1 == d.(theirs := d1.theirs, back := d.back + [m]) && StackedAt(d, t)
    ensures StackedAt(d1, t)
  {
    if Settling(d, t) {
      var i :| 0 <= i < |d.back| && IsDel(d.back[i], t) && NoDel(t.parent, d.back[..i]);
      assert d1.back[i] == d.back[i] && d1.back[..i] == d.back[..i];
    }
  }

  /** ... and from the peer, whose transactions may be replied to. */
  lemma SendOther(d: Dir, e: Dir, m: Msg)
    requires Half(d) && Half(e) && Mirror(d, e) && MaySend(d, m)
    ensures Half(e.(theirs := AfterSend(d, m).mine, back := AfterSend(d, m).out))
  {
    var e1 := e.(theirs := AfterSend(d, m).mine, back := AfterSend(d, m).out);
    forall u: Name {:trigger Agreed(e1, u)} | u.Name? && u.side == e1.s ensures Agreed(e1, u) {
      assert Agreed(e, u);
      ReplyAgreed(e, e1, u, m);
    }
    forall j {:trigger e1.out[j]} | 0 <= j < |e1.out| && Own(e1, e1.out[j].ref) ensures Ready(e1, e1.out[j].ref.parent, e1.out[..j]) {
      assert Ready(e, e.out[j].ref.parent, e.out[..j]);
    }
    forall t, u {:trigger Before(u, t)} | t in e1.mine && Own(e1, t) && u in e1.theirs ensures Before(u, t) {
      assert u in e.theirs;
    }
    assert Serials(e1);
    forall t {:trigger t in e1.mine} | t in e1.mine && t.Name? && t.side == e1.s ensures StackedAt(e1, t) {
      SettlingMore(e, e1, t, m);
    }
  }

  lemma ReplyAgreed(e: Dir, e1: Dir, u: Name, m: Msg)
    requires Agreed(e, u) && u.Name? && u.side == e.s && m.ref in e.theirs &&
      !e.theirs[m.ref].tx.del && m.cmd.create == !e.theirs[m.ref].tx.create
    requires e1 == e.(theirs := Become(e.theirs, m.ref, Sent(e.theirs, m)), back := e.back + [m])
    ensures Agreed(e1, u)
  {
    AppendRef(e.back, m, u);
    var rx := if u in e.mine then e.mine[u].rx else NOTHING;
    var tx := if u in e.theirs then e.theirs[u].tx else CLOSED;
    StreamAppend(rx, e.back, u, tx, m);
    if u == m.ref && m.cmd.del {
      StreamSame(rx, e.back + [m], u, tx.(create := true, del := true), CLOSED);
      if u in e.mine {
        StreamQuiet(e.theirs[u].rx, e.out, u, e.mine[u].tx);
      }
    }
  }

  // ---------------------------------------------------------------- receiving

  /** The bits of the transaction of a message after it was received. */
  ghost function Taken(mine: map<Name, Bits>, m: Msg): Bits {
    if m.ref in mine then Bits(mine[m.ref].tx, Advance(mine[m.ref].rx, m.cmd)) else Bits(Cmd(false, false, true), m.cmd)
  }

  ghost function AfterRecv(d: Dir): Dir
    requires d.back != []
  {
    var m := d.back[0];
    d.(mine := if m.ref.Root? then d.mine else Become(d.mine, m.ref, Taken(d.mine, m)), back := d.back[1..])
  }

  lemma {:induction false} StreamSameRx(rx: Cmd, rx': Cmd, q: seq<Msg>, t: Name, tx: Cmd)
    requires rx.create == rx'.create && rx.del == rx'.del
    ensures Stream(rx, q, t, tx) == Stream(rx', q, t, tx)
    decreases |q|
  {
    if q != [] {
      if q[0].ref != t {
        StreamSameRx(rx, rx', q[1..], t, tx);
      } else {
        StreamSameRx(rx.(create := true, del := q[0].cmd.del), rx'.(create := true, del := q[0].cmd.del), q[1..], t, tx);
      }
    }
  }

  /** The next message of an open transaction fits its bits. */
  lemma StreamHead(rx: Cmd, q: seq<Msg>, t: Name, tx: Cmd)
    requires q != [] && q[0].ref == t && Stream(rx, q, t, tx)
    ensures !rx.del && q[0].cmd.create == !rx.create && Stream(Advance(rx, q[0].cmd), q[1..], t, tx)
  {
    StreamSameRx(Advance(rx, q[0].cmd), rx.(create := true, del := q[0].cmd.del), q[1..], t, tx);
  }

  /** What is known about the message that comes next. */
  lemma NextMessage(d: Dir, e: Dir)
    requires Half(d) && Half(e) && Mirror(d, e) && d.back != [] && d.back[0].ref.Name?
    ensures var m, t := d.back[0], d.back[0].ref;
      && Formed(Other(d.s), m)
      && (t in d.mine ==> !d.mine[t].rx.del && m.cmd.create == !d.mine[t].rx.create)
      && (t in d.mine && t.side != d.s ==> d.mine[t].rx.create)
      && (t.side == d.s ==> t in d.mine && (t in d.skip || t.parent == Root || t.parent in d.mine))
      && (t.side != d.s ==> (t.parent == Root || (t.parent in d.mine && !d.mine[t.parent].rx.del)))
      && (t !in d.mine ==> t.side != d.s && t !in e.keys && m.cmd.create && t in d.theirs)
  {
    var m, t := d.back[0], d.back[0].ref;
    assert Formed(e.s, e.out[0]);
    if t.side == d.s {
      assert Agreed(d, t);
      OwnNext(d, t);
      assert StackedAt(d, t);
    } else {
      assert Agreed(e, t);
      OtherNext(e, t);
      assert Ready(e, e.out[0].ref.parent, e.out[..0]);
    }
  }

  lemma OwnNext(d: Dir, t: Name)
    requires Agreed(d, t) && d.back != [] && d.back[0].ref == t
    ensures t in d.mine && !d.mine[t].rx.del && d.back[0].cmd.create == !d.mine[t].rx.create
  {
    assert !Quiet(d.back, t);
    if t in d.mine {
      StreamHead(d.mine[t].rx, d.back, t, if t in d.theirs then d.theirs[t].tx else CLOSED);
    }
  }

  lemma OtherNext(e: Dir, t: Name)
    requires Agreed(e, t) && e.out != [] && e.out[0].ref == t
    ensures t in e.theirs ==> e.theirs[t].rx.create && !e.theirs[t].rx.del && e.out[0].cmd.create == !e.theirs[t].rx.create
    ensures t !in e.theirs ==> t !in e.keys && e.out[0].cmd.create && t in e.mine
  {
    assert !Quiet(e.out, t);
    if t in e.theirs {
      StreamHead(e.theirs[t].rx, e.out, t, if t in e.mine then e.mine[t].tx else CLOSED);
    } else {
      StreamHead(NOTHING, e.out, t, e.mine[t].tx);
    }
  }

  lemma TailQuiet(q: seq<Msg>, t: Name)
    requires q != []
    ensures Quiet(q, t) ==> Quiet(q[1..], t)
    ensures q[0].ref != t && Quiet(q[1..], t) ==> Quiet(q, t)
  {
    forall i | 0 < i < |q| ensures q[i] == q[1..][i - 1] {}
  }

  /** An own transaction, after a message in the reply direction arrived. */
  lemma ReplyTaken(d: Dir, d1: Dir, u: Name)
    requires u.Name? && u.side == d.s && Agreed(d, u) && d.back != []
    requires d.back[0].ref == u ==> u in d.mine
    requires d1 == d.(mine := d1.mine, back := d.back[1..])
    requires if d.back[0].ref == u then d1.mine == Become(d.mine, u, Taken(d.mine, d.back[0]))
             else (u in d1.mine <==> u in d.mine) && (u in d.mine ==> d1.mine[u] == d.mine[u])
    ensures Agreed(d1, u)
  {
    TailQuiet(d.back, u);
    if d.back[0].ref == u {
      var tx := if u in d.theirs then d.theirs[u].tx else CLOSED;
      assert !Quiet(d.back, u);
      StreamHead(d.mine[u].rx, d.back, u, tx);
      var b := Taken(d.mine, d.back[0]);
      StreamQuiet(b.rx, d1.back, u, tx);
      if b.tx.del && u in d.theirs {
        StreamSame(d.theirs[u].rx, d.out, u, b.tx, CLOSED);
      }
    }
  }

  /** Receiving keeps what both sides agree on, seen from the receiver ... */
  lemma RecvHalf(d: Dir, e: Dir)
    requires Half(d) && Half(e) && Mirror(d, e) && d.back != []
    ensures Half(AfterRecv(d))
  {
    var d1, m := AfterRecv(d), d.back[0];
    if m.ref.Name? {
      NextMessage(d, e);
    }
    forall u: Name {:trigger Agreed(d1, u)} | u.Name? && u.side == d1.s ensures Agreed(d1, u) {
      assert Agreed(d, u);
      ReplyTaken(d, d1, u);
    }
    forall t {:trigger t in d1.mine} | t in d1.mine && t.Name? && t.side == d1.s ensures StackedAt(d1, t) {
      assert t in d.mine && StackedAt(d, t);
      RecvStacked(d, t);
    }
    forall j {:trigger d1.out[j]} | 0 <= j < |d1.out| && Own(d1, d1.out[j].ref) ensures Ready(d1, d1.out[j].ref.parent, d1.out[..j]) {
      assert Ready(d, d.out[j].ref.parent, d.out[..j]);
    }
    RecvSerials(d, d1);
  }

  lemma RecvStacked(d: Dir, t: Name)
    requires d.back != [] && t in d.mine && Own(d, t) && StackedAt(d, t) && t in AfterRecv(d).mine
    ensures StackedAt(AfterRecv(d), t)
  {
    var d1, m := AfterRecv(d), d.back[0];
    if Settling(d, t) {
      var i :| 0 <= i < |d.back| && IsDel(d.back[i], t) && NoDel(t.parent, d.back[..i]);
      assert i > 0;
      assert d1.back[i - 1] == d.back[i];
      assert d.back[..i][0] == m;
      assert NoDel(t.parent, d1.back[..i - 1]) by {
        forall k | 0 <= k < i - 1 ensures d1.back[k] == d.back[k + 1] {}
      }
      assert !IsDel(m, t.parent);
      assert Settling(d1, t);
    }
  }

  lemma RecvSerials(d: Dir, d1: Dir)
    requires Serials(d) && Unique(d) && d1 == d.(mine := d1.mine, back := d1.back)
    requires forall t {:trigger t in d1.mine} :: t in d1.mine && Own(d, t) ==> t in d.mine
    ensures Serials(d1) && Unique(d1)
  {
    forall t, j {:trigger Before(d1.out[j].ref, t)} | t in d1.mine && Own(d1, t) && 0 <= j < |d1.out| ensures Before(d1.out[j].ref, t) {
      assert Before(d.out[j].ref, t);
    }
    forall t, u {:trigger Clash(t, u)} | t in d1.mine && u in d1.mine && Own(d1, t) ensures !Clash(t, u) {
      if Own(d, u) {
        assert t in d.mine && u in d.mine;
      }
    }
    forall i, j {:trigger Before(d1.out[i].ref, d1.out[j].ref)} | 0 <= i < j < |d1.out| && Own(d1, d1.out[i].ref)
      ensures Before(d1.out[i].ref, d1.out[j].ref)
    {
      assert Before(d.out[i].ref, d.out[j].ref);
    }
    forall t, j {:trigger Before(t, d1.out[j].ref)} | t in d1.theirs && Own(d1, t) && 0 <= j < |d1.out| ensures Before(t, d1.out[j].ref) {
      assert Before(t, d.out[j].ref);
    }
  }

  ghost function AfterTaken(e: Dir, keys: set<Name>): Dir
    requires e.out != []
  {
    var m := e.out[0];
    e.(theirs := if m.ref.Root? then e.theirs else Become(e.theirs, m.ref, Taken(e.theirs, m)), out := e.out[1..], keys := keys)
  }

  /** A transaction of the sender, after a message was taken by the peer. */
  lemma SentTaken(e: Dir, e1: Dir, u: Name)
    requires u.Name? && u.side == e.s && Agreed(e, u) && e.out != []
    requires e1 == e.(theirs := e1.theirs, out := e.out[1..], keys := e1.keys)
    requires e.out[0].ref != u && u in e1.keys ==> u in e.keys
    requires if e.out[0].ref == u then e1.theirs == Become(e.theirs, u, Taken(e.theirs, e.out[0]))
             else (u in e1.theirs <==> u in e.theirs) && (u in e.theirs ==> e1.theirs[u] == e.theirs[u])
    ensures Agreed(e1, u)
  {
    TailQuiet(e.out, u);
    if e.out[0].ref == u {
      OtherNext(e, u);
      var b := Taken(e.theirs, e.out[0]);
      if u in e.theirs {
        var tx := if u in e.mine then e.mine[u].tx else CLOSED;
        StreamHead(e.theirs[u].rx, e.out, u, tx);
        StreamQuiet(b.rx, e1.out, u, tx);
        if b.tx.del && u in e.mine {
          StreamSame(e.mine[u].rx, e.back, u, b.tx, CLOSED);
        }
      } else {
        StreamHead(NOTHING, e.out, u, e.mine[u].tx);
        StreamSameRx(Advance(NOTHING, e.out[0].cmd), b.rx, e1.out, u, e.mine[u].tx);
        StreamQuiet(e.mine[u].rx, e.back, u, b.tx);
      }
    }
  }

  lemma TakenCircuits(e: Dir, keys: set<Name>)
    requires Half(e) && e.out != []
    ensures Circuits(AfterTaken(e, keys))
  {
    var e1, m := AfterTaken(e, keys), e.out[0];
    forall j {:trigger e1.out[j]} | 0 <= j < |e1.out| && Own(e1, e1.out[j].ref) ensures Ready(e1, e1.out[j].ref.parent, e1.out[..j]) {
      var p := e.out[j + 1].ref.parent;
      assert Ready(e, p, e.out[..j + 1]);
      ReadyNext(e, keys, p, j);
    }
  }

  lemma ReadyNext(e: Dir, keys: set<Name>, p: Name, j: nat)
    requires Half(e) && e.out != [] && j < |e.out| && Ready(e, p, e.out[..j + 1])
    ensures Ready(AfterTaken(e, keys), p, e.out[1..][..j])
  {
    if p.Name? {
      var m, q, q1 := e.out[0], e.out[..j + 1], e.out[1..][..j];
      assert q[0] == m && q[1..] == q1;
      assert NoDel(p, q1) by {
        forall i | 0 <= i < |q1| ensures q1[i] == q[i + 1] {}
      }
      assert !(m.ref == p && m.cmd.del);
      if p in e.theirs && !e.theirs[p].rx.del {
      } else {
        var i :| 0 <= i < |q| && q[i].ref == p && q[i].cmd.create;
        if i == 0 {
          assert Agreed(e, p);
          OtherNext(e, p);
        } else {
          assert q1[i - 1] == q[i];
        }
      }
    }
  }

  lemma TakenSerials(e: Dir, keys: set<Name>)
    requires Serials(e) && e.out != []
    ensures Serials(AfterTaken(e, keys))
  {
    var e1, m := AfterTaken(e, keys), e.out[0];
    forall i, j {:trigger Before(e1.out[i].ref, e1.out[j].ref)} | 0 <= i < j < |e1.out| && Own(e1, e1.out[i].ref)
      ensures Before(e1.out[i].ref, e1.out[j].ref)
    {
      assert Before(e.out[i + 1].ref, e.out[j + 1].ref);
    }
    forall t, j {:trigger Before(t, e1.out[j].ref)} | t in e1.theirs && Own(e1, t) && 0 <= j < |e1.out| ensures Before(t, e1.out[j].ref) {
      if t in e.theirs {
        assert Before(t, e.out[j + 1].ref);
      } else {
        assert Before(e.out[0].ref, e.out[j + 1].ref);
      }
    }
    forall t, j {:trigger Before(e1.out[j].ref, t)} | t in e1.mine && Own(e1, t) && 0 <= j < |e1.out| ensures Before(e1.out[j].ref, t) {
      assert Before(e.out[j + 1].ref, t);
    }
    forall t, u {:trigger Before(u, t)} | t in e1.mine && Own(e1, t) && u in e1.theirs ensures Before(u, t) {
      if u !in e.theirs {
        assert Before(e.out[0].ref, t);
      }
    }
  }

  /** ... and from the sender; only the transaction of the message may be new to the peer. */
  lemma RecvOther(d: Dir, e: Dir, keys: set<Name>)
    requires Half(d) && Half(e) && Mirror(d, e) && e.out != []
    requires forall u {:trigger u in keys} :: u in keys && Own(e, u) && u != e.out[0].ref ==> u in e.keys
    ensures Half(AfterTaken(e, keys))
  {
    var e1, m := AfterTaken(e, keys), e.out[0];
    forall u: Name {:trigger Agreed(e1, u)} | u.Name? && u.side == e1.s ensures Agreed(e1, u) {
      assert Agreed(e, u);
      SentTaken(e, e1, u);
    }
    TakenCircuits(e, keys);
    TakenSerials(e, keys);
    forall j {:trigger e1.out[j]} | 0 <= j < |e1.out| ensures Formed(e1.s, e1.out[j]) {
      assert Formed(e.s, e.out[j + 1]);
    }
  }

  /** A message outside of any transaction concerns none. */
  lemma RootSent(d: Dir, m: Msg)
    requires Half(d) && m.ref == Root && Formed(d.s, m)
    ensures Half(d.(out := d.out + [m]))
  {
    var d1 := d.(out := d.out + [m]);
    forall u: Name {:trigger Agreed(d1, u)} | u.Name? && u.side == d1.s ensures Agreed(d1, u) {
      assert Agreed(d, u);
      AppendRef(d.out, m, u);
      StreamAppend(if u in d.theirs then d.theirs[u].rx else NOTHING, d.out, u, if u in d.mine then d.mine[u].tx else CLOSED, m);
    }
    forall j {:trigger d1.out[j]} | 0 <= j < |d1.out| && Own(d1, d1.out[j].ref) ensures Ready(d1, d1.out[j].ref.parent, d1.out[..j]) {
      assert d1.out[..j] == d.out[..j];
      assert Ready(d, d.out[j].ref.parent, d.out[..j]);
    }
    RootSerials(d, m);
  }

  lemma RootSerials(d: Dir, m: Msg)
    requires Serials(d) && m.ref == Root
    ensures Serials(d.(out := d.out + [m]))
  {
    var d1 := d.(out := d.out + [m]);
    forall i, j {:trigger Before(d1.out[i].ref, d1.out[j].ref)} | 0 <= i < j < |d1.out| && Own(d1, d1.out[i].ref)
      ensures Before(d1.out[i].ref, d1.out[j].ref)
    {
      if j < |d.out| {
        assert Before(d.out[i].ref, d.out[j].ref);
      }
    }
    forall t, j {:trigger Before(t, d1.out[j].ref)} | t in d1.theirs && Own(d1, t) && 0 <= j < |d1.out| ensures Before(t, d1.out[j].ref) {
      if j < |d.out| {
        assert Before(t, d.out[j].ref);
      }
    }
    forall t, j {:trigger Before(d1.out[j].ref, t)} | t in d1.mine && Own(d1, t) && 0 <= j < |d1.out| ensures Before(d1.out[j].ref, t) {
      if j < |d.out| {
        assert Before(d.out[j].ref, t);
      }
    }
  }

  lemma RootReplied(d: Dir, m: Msg)
    requires Half(d) && m.ref == Root
    ensures Half(d.(back := d.back + [m]))
  {
    var d1 := d.(back := d.back + [m]);
    forall u: Name {:trigger Agreed(d1, u)} | u.Name? && u.side == d1.s ensures Agreed(d1, u) {
      assert Agreed(d, u);
      AppendRef(d.back, m, u);
      StreamAppend(if u in d.mine then d.mine[u].rx else NOTHING, d.back, u, if u in d.theirs then d.theirs[u].tx else CLOSED, m);
    }
    forall j {:trigger d1.out[j]} | 0 <= j < |d1.out| && Own(d1, d1.out[j].ref) ensures Ready(d1, d1.out[j].ref.parent, d1.out[..j]) {
      assert Ready(d, d.out[j].ref.parent, d.out[..j]);
    }
    forall t {:trigger t in d1.mine} | t in d1.mine && t.Name? && t.side == d1.s ensures StackedAt(d1, t) {
      SettlingMore(d, d1, t, m);
    }
  }

  /** No open transaction of the sender has the msgid of one that is just being opened. */
  lemma NoOld(d: Dir, e: Dir, u: Name)
    requires Half(d) && Half(e) && Mirror(d, e) && d.back != [] && d.back[0].ref.Name? && d.back[0].ref !in d.mine
    ensures u in d.mine && u.Name? && u.side == d.back[0].ref.side ==> u.id != d.back[0].ref.id
  {
    var t := d.back[0].ref;
    NextMessage(d, e);
    var clash := Clash(t, u);
    if u in d.mine && Clash(u, t) {
      if u !in e.mine {
        assert Agreed(e, u);
        StreamQuiet(e.theirs[u].rx, e.out, u, CLOSED);
        NoneOfOld(e, u);
      }
    }
  }

  lemma NoneOfOld(e: Dir, u: Name)
    requires Serials(e) && e.out != [] && Own(e, e.out[0].ref) && Own(e, u) && u in e.theirs && Clash(u, e.out[0].ref)
    ensures Quiet(e.out, u)
  {
    forall i | 0 <= i < |e.out| ensures e.out[i].ref != u {
      var one, two := Before(u, e.out[0].ref), Before(e.out[0].ref, e.out[i].ref);
    }
  }
}
