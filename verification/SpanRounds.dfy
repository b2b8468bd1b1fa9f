/** What becomes of the SPANs for a node that is withdrawn: round by round the nearest vanish. */
module SpanRounds {
  import opened SpanOrder
  import opened Spans
  import opened SpanNet

  /** No end system announces the node (any more). */
  ghost predicate Unannounced(x: Net, n: nat) {
    forall l {:trigger l in x.announced} :: l in x.announced ==> l.node != n
  }

  /** All SPANs for the node, received or under way, are at least `m` away. */
  ghost predicate AtLeast(w: Wires, x: Net, n: nat, m: nat) {
    && (forall t {:trigger Live(w, x, t)} :: Live(w, x, t) && t.node == n ==> t.dist >= m)
    && (forall c, i {:trigger x.chan(c)[i]} :: 0 <= i < |x.chan(c)| && x.chan(c)[i].Begin? && x.chan(c)[i].span.node == n ==>
          x.chan(c)[i].span.dist >= m)
  }

  /** During a round: the nearest SPANs for the node all end within what is owed. */
  ghost predicate RoundOk(w: Wires, x: Net, n: nat, m: nat) {
    && Unannounced(x, n) && AtLeast(w, x, n, m)
    && (forall t {:trigger Live(w, x, t)} :: Live(w, x, t) && t.node == n && t.dist == m ==>
          Ends(x.chan(w.peer(t.iocom)), t, 0, x.owed(w.peer(t.iocom))))
    && (forall c, i {:trigger x.chan(c)[i]} :: 0 <= i < |x.chan(c)| ==>
          x.chan(c)[i].Begin? && x.chan(c)[i].span.node == n && x.chan(c)[i].span.dist == m ==>
          Ends(x.chan(c), x.chan(c)[i].span, i + 1, x.owed(c)))
  }

  /** A round owes what is under way when it starts. */
  ghost function NewRound(x: Net): Net { x.(owed := (c: nat) => |x.chan(c)|) }

  ghost predicate Settled(x: Net) { forall c {:trigger x.owed(c)} :: x.owed(c) == 0 }

  /** Without an announcement the nearest SPANs have no source: their ends are under way. */
  lemma RoundStarts(w: Wires, x: Net, n: nat, m: nat)
    requires Inv(w, x) && Unannounced(x, n) && AtLeast(w, x, n, m)
    ensures Inv(w, NewRound(x)) && RoundOk(w, NewRound(x), n, m)
  {
    var y := NewRound(x);
    SameDaemons(w, x, y);
    SilentKeeps(w, x, y);
    forall t {:trigger Live(w, y, t)} | Live(w, y, t) && t.node == n && t.dist == m
      ensures Ends(y.chan(w.peer(t.iocom)), t, 0, y.owed(w.peer(t.iocom)))
    {
      assert Live(w, x, t) && SpanOk(w, x, t);
      Sourceless(w, x, t, m);
    }
    forall c, i {:trigger y.chan(c)[i]}
      | 0 <= i < |y.chan(c)| && y.chan(c)[i].Begin? && y.chan(c)[i].span.node == n && y.chan(c)[i].span.dist == m
      ensures Ends(y.chan(c), y.chan(c)[i].span, i + 1, y.owed(c))
    {
      assert x.chan(c)[i].Begin? && BeginOk(w, x, c, i, x.chan(c)[i].span);
      Sourceless(w, x, x.chan(c)[i].span, m);
    }
  }

  lemma Sourceless(w: Wires, x: Net, t: Link, m: nat)
    requires Inv(w, x) && AtLeast(w, x, t.node, m) && t.dist == m
    ensures !Sourced(w, x, t)
  {
    hide Inv, Relaying, Live;
    if Sourced(w, x, t) {
      var l :| Relaying(w, x, w.peer(t.iocom), l) && x.out(w.peer(t.iocom), l) == t;
      SourceLive(w, x, l, t);
    }
  }

  /** When all that was owed has been delivered, the nearest are gone. */
  lemma RoundEnds(w: Wires, x: Net, n: nat, m: nat)
    requires RoundOk(w, x, n, m) && Settled(x)
    ensures AtLeast(w, x, n, m + 1)
  {}

  /** A step that sends nothing and adds no SPAN for the node. */
  lemma SilentRound(w: Wires, x: Net, y: Net, n: nat, m: nat)
    requires RoundOk(w, x, n, m) && Unannounced(y, n)
    requires forall c {:trigger y.chan(c)} :: y.chan(c) == x.chan(c)
    requires forall c {:trigger y.owed(c)} :: y.owed(c) == x.owed(c)
    requires forall t {:trigger Live(w, y, t)} :: Live(w, y, t) && t.node == n ==> Live(w, x, t)
    ensures RoundOk(w, y, n, m)
  {
    hide Live;
  }

  /** A step that sends one message: a new SPAN is farther. */
  lemma SendRound(w: Wires, x: Net, y: Net, c: nat, e: Msg, n: nat, m: nat)
    requires RoundOk(w, x, n, m) && y.announced == x.announced
    requires forall b, i {:trigger y.chan(b)[i]} :: 0 <= i < |y.chan(b)| ==>
      if i < |x.chan(b)| then y.chan(b)[i] == x.chan(b)[i] else b == c && y.chan(b)[i] == e
    requires Extends(x, y) && (e.Begin? && e.span.node == n ==> e.span.dist > m)
    requires forall b {:trigger y.owed(b)} :: y.owed(b) == x.owed(b)
    requires forall t {:trigger Live(w, y, t)} :: Live(w, y, t) ==> Live(w, x, t)
    ensures RoundOk(w, y, n, m)
  {
    hide Live;
    forall b, t, i, k | Ends(x.chan(b), t, i, k) ensures Ends(y.chan(b), t, i, k) {
      var j :| i <= j < k && 0 <= j < |x.chan(b)| && (x.chan(b)[j] == End(t) || x.chan(b)[j] == Eof);
      assert y.chan(b)[j] == x.chan(b)[j];
    }
    forall t {:trigger Live(w, y, t)} | Live(w, y, t) && t.node == n && t.dist == m
      ensures Ends(y.chan(w.peer(t.iocom)), t, 0, y.owed(w.peer(t.iocom)))
    {
      assert Live(w, x, t);
    }
  }

  lemma RelayRound(w: Wires, x: Net, s: Step, n: nat, m: nat)
    requires Inv(w, x) && Enabled(w, x, s) && (s.Relay? || s.Drop?) && RoundOk(w, x, n, m)
    ensures RoundOk(w, Next(w, x, s), n, m)
  {
    var y := Next(w, x, s);
    if s.Relay? {
      RelayFacts(w, x, s, y);
      OwnLinks(w, x, w.owner(s.c));
      assert Live(w, x, s.l);
      hide Next, Enabled, Inv, Ends, Live;
      SendRound(w, x, y, s.c, Begin(Relayed(s.l, s.rnss, s.state, w.peer(s.c))), n, m);
    } else {
      DropFacts(w, x, s, y);
      hide Next, Enabled, Inv, Ends, Live;
      SendRound(w, x, y, s.c, End(x.out(s.c, s.l)), n, m);
    }
  }

  /** One message has been handled: what is owed moves up. */
  lemma HandledEnds(s: seq<Msg>, t: Link, i: int, k: int)
    requires s != [] && Ends(s, t, i, k) && (i > 0 || (s[0] != End(t) && s[0] != Eof))
    ensures Ends(s[1..], t, i - 1, k - 1) && Ends(s[1..], t, if i == 0 then 0 else i - 1, if k == 0 then 0 else k - 1)
  {
    var j :| i <= j < k && 0 <= j < |s| && (s[j] == End(t) || s[j] == Eof);
    assert s[1..][j - 1] == s[j];
  }

  lemma HandledRound(w: Wires, x: Net, y: Net, c: nat, n: nat, m: nat)
    requires w.Valid() && Handled(w, x, y, c) && RoundOk(w, x, n, m)
    requires x.chan(c)[0].Begin? ==> w.peer(c) == x.chan(c)[0].span.iocom
    requires forall b {:trigger y.owed(b)} :: y.owed(b) == if b == c then (if x.owed(c) == 0 then 0 else x.owed(c) - 1) else x.owed(b)
    ensures RoundOk(w, y, n, m)
  {
    hide Live, Relaying, Ends;
    var s := x.chan(c);
    assert w.peer(w.peer(c)) == c;
    forall t {:trigger Live(w, y, t)} | Live(w, y, t) && t.node == n
      ensures t.dist >= m && (t.dist == m ==> Ends(y.chan(w.peer(t.iocom)), t, 0, y.owed(w.peer(t.iocom))))
    {
      if t.dist == m && w.peer(t.iocom) == c {
        if Live(w, x, t) {
          HandledEnds(s, t, 0, x.owed(c));
        } else {
          HandledEnds(s, t, 1, x.owed(c));
          NoneOwed(s[1..], t, x.owed(c) - 1);
        }
      }
    }
    forall b, i {:trigger y.chan(b)[i]} | 0 <= i < |y.chan(b)| && y.chan(b)[i].Begin? && y.chan(b)[i].span.node == n
      ensures y.chan(b)[i].span.dist >= m
      ensures y.chan(b)[i].span.dist == m ==> Ends(y.chan(b), y.chan(b)[i].span, i + 1, y.owed(b))
    {
      var k := if b == c then i + 1 else i;
      var t := y.chan(b)[i].span;
      assert x.chan(b)[k] == Begin(t);
      if t.dist == m && b == c {
        HandledEnds(s, t, k + 1, x.owed(c));
        NoneOwed(s[1..], t, x.owed(c) - 1);
      }
    }
  }

  lemma NoneOwed(s: seq<Msg>, t: Link, k: int)
    ensures k < 0 ==> !Ends(s, t, 0, k)
  {}

  /** A broken connection owes its ends. */
  lemma BreakRound(w: Wires, x: Net, c: nat, kept: nat, ends: seq<Msg>, n: nat, m: nat)
    requires Inv(w, x) && RoundOk(w, x, n, m) && c !in x.dead && kept <= |x.chan(c)| && EndsAll(w, x, c, ends)
    ensures RoundOk(w, Break(w, x, c, kept, ends), n, m)
  {
    var y, p := Break(w, x, c, kept, ends), w.peer(c);
    SameDaemons(w, x, y);
    hide Live, DaemonsOk, SpanOk, BeginOk, Carries, DeadOk, Relaying;
    assert w.peer(p) == c;
    assert p !in x.dead ==> y.chan(c)[kept] == Eof;
    forall t {:trigger Live(w, y, t)} | Live(w, y, t) && t.node == n && t.dist == m
      ensures Ends(y.chan(w.peer(t.iocom)), t, 0, y.owed(w.peer(t.iocom)))
    {
      assert Live(w, x, t) && w.peer(w.peer(t.iocom)) == t.iocom;
      if t.iocom == c {
        assert End(t) in ends && y.chan(p) == ends;
      }
    }
    forall b, i {:trigger y.chan(b)[i]} | 0 <= i < |y.chan(b)| && y.chan(b)[i].Begin? && y.chan(b)[i].span.node == n
      ensures y.chan(b)[i].span.dist >= m
      ensures y.chan(b)[i].span.dist == m ==> Ends(y.chan(b), y.chan(b)[i].span, i + 1, y.owed(b))
    {
      assert x.chan(b)[i] == y.chan(b)[i];
    }
  }

  /** Every step keeps the round going. */
  lemma RoundStep(w: Wires, x: Net, s: Step, n: nat, m: nat)
    requires Inv(w, x) && Enabled(w, x, s) && RoundOk(w, x, n, m) && !(s.Announce? && s.l.node == n)
    ensures RoundOk(w, Next(w, x, s), n, m)
  {
    var y := Next(w, x, s);
    match s
    case Announce(l) =>
      JoinDaemons(w, x, l);
      SameDaemons(w, Join(w, x, l), y);
      SilentRound(w, x, y, n, m);
    case Withdraw(l) =>
      LeaveDaemons(w, x, l);
      SilentRound(w, x, y, n, m);
    case Connect(_) => SilentRound(w, x, y, n, m);
    case Disconnect(_) => SilentRound(w, x, y, n, m);
    case Relay(_, _, _, _) => RelayRound(w, x, s, n, m);
    case Drop(_, _) => RelayRound(w, x, s, n, m);
    case Fail(c, kept, ends) => BreakRound(w, x, c, kept, ends, n, m);
    case Deliver(c, ends) =>
      if x.chan(c)[0].Eof? {
        EofAlive(w, x, c);
        BreakRound(w, x, w.peer(c), |x.chan(w.peer(c))|, ends, n, m);
      } else {
        ReceiveKeeps(w, x, s);
        assert x.chan(c)[0].Begin? ==> BeginOk(w, x, c, 0, x.chan(c)[0].span);
        HandledRound(w, x, y, c, n, m);
      }
  }

  predicate Silent(steps: seq<Step>, n: nat) { forall k :: 0 <= k < |steps| ==> !(steps[k].Announce? && steps[k].l.node == n) }

  lemma {:induction false} RunRound(w: Wires, x: Net, steps: seq<Step>, n: nat, m: nat)
    requires Inv(w, x) && RoundOk(w, x, n, m) && Silent(steps, n)
    ensures Inv(w, Exec(w, x, steps)) && RoundOk(w, Exec(w, x, steps), n, m)
    decreases |steps|
  {
    hide Inv, RoundOk, Next, Enabled;
    if steps != [] {
      if Enabled(w, x, steps[0]) {
        StepKeeps(w, x, steps[0]);
        RoundStep(w, x, steps[0], n, m);
      }
      RunRound(w, if Enabled(w, x, steps[0]) then Next(w, x, steps[0]) else x, steps[1..], n, m);
    }
  }

  /** Rounds, one after the other. */
  ghost function Rounds(w: Wires, x: Net, rounds: seq<seq<Step>>): Net
    decreases |rounds|
  {
    if rounds == [] then x else Rounds(w, Exec(w, NewRound(x), rounds[0]), rounds[1..])
  }

  /** Each round goes on until all that it owed has been delivered, and in none of them the node
      is announced. */
  ghost predicate Complete(w: Wires, x: Net, rounds: seq<seq<Step>>, n: nat)
    decreases |rounds|
  {
    rounds != [] ==>
      var y := Exec(w, NewRound(x), rounds[0]);
      Settled(y) && Silent(rounds[0], n) && Complete(w, y, rounds[1..], n)
  }

  /** Each round takes the nearest SPANs for a node that nobody announces. */
  lemma {:induction false} RoundsRaise(w: Wires, x: Net, rounds: seq<seq<Step>>, n: nat, m: nat)
    requires Inv(w, x) && Unannounced(x, n) && AtLeast(w, x, n, m) && Complete(w, x, rounds, n)
    ensures Inv(w, Rounds(w, x, rounds)) && Unannounced(Rounds(w, x, rounds), n)
    ensures AtLeast(w, Rounds(w, x, rounds), n, m + |rounds|)
    decreases |rounds|
  {
    hide Inv, AtLeast, Unannounced, NewRound, Exec, Settled;
    if rounds != [] {
      RoundStarts(w, x, n, m);
      RunRound(w, NewRound(x), rounds[0], n, m);
      var y := Exec(w, NewRound(x), rounds[0]);
      RoundEnds(w, y, n, m);
      RoundsRaise(w, y, rounds[1..], n, m + 1);
    }
  }

  /** After 18 rounds without an announcement no SPAN for the node is left, and none is under way. */
  lemma Vanishes(w: Wires, x: Net, rounds: seq<seq<Step>>, n: nat)
    requires Inv(w, x) && Unannounced(x, n) && Complete(w, x, rounds, n) && |rounds| >= DMSG_SPAN_MAXDIST + 2
    ensures var y := Rounds(w, x, rounds);
      && (forall t {:trigger Live(w, y, t)} :: Live(w, y, t) ==> t.node != n)
      && (forall c, i {:trigger y.chan(c)[i]} :: 0 <= i < |y.chan(c)| && y.chan(c)[i].Begin? ==> y.chan(c)[i].span.node != n)
  {
    RoundsRaise(w, x, rounds, n, 0);
    NoneSoFar(w, Rounds(w, x, rounds), n, |rounds|);
  }

  lemma NoneSoFar(w: Wires, y: Net, n: nat, m: nat)
    requires Inv(w, y) && Unannounced(y, n) && AtLeast(w, y, n, m) && m >= DMSG_SPAN_MAXDIST + 2
    ensures forall t {:trigger Live(w, y, t)} :: Live(w, y, t) ==> t.node != n
    ensures forall c, i {:trigger y.chan(c)[i]} :: 0 <= i < |y.chan(c)| && y.chan(c)[i].Begin? ==> y.chan(c)[i].span.node != n
  {
    forall t {:trigger Live(w, y, t)} | Live(w, y, t) ensures t.node != n {
      assert t !in y.announced ==> SpanOk(w, y, t);
    }
    forall c, i {:trigger y.chan(c)[i]} | 0 <= i < |y.chan(c)| && y.chan(c)[i].Begin? ensures y.chan(c)[i].span.node != n {
      assert BeginOk(w, y, c, i, y.chan(c)[i].span);
    }
  }

  /** A quiet network has no SPAN for a node that nobody announces: it would have a source, which
      is nearer, and so on. */
  lemma QuietGone(w: Wires, x: Net, n: nat, t: Link)
    requires Inv(w, x) && Unannounced(x, n) && (forall c {:trigger x.chan(c)} :: x.chan(c) == []) && Live(w, x, t)
    ensures t.node != n
  {
    QuietRaises(w, x, n, DMSG_SPAN_MAXDIST + 2);
    NoneSoFar(w, x, n, DMSG_SPAN_MAXDIST + 2);
  }

  lemma {:induction false} QuietRaises(w: Wires, x: Net, n: nat, m: nat)
    requires Inv(w, x) && Unannounced(x, n) && forall c {:trigger x.chan(c)} :: x.chan(c) == []
    ensures AtLeast(w, x, n, m)
  {
    hide Inv, SpanOk;
    if m > 0 {
      QuietRaises(w, x, n, m - 1);
      RoundStarts(w, x, n, m - 1);
      assert Settled(NewRound(x));
      RoundEnds(w, NewRound(x), n, m - 1);
      SameDaemons(w, x, NewRound(x));
    }
  }
}
