/** What can go wrong when the outer of two stacked transactions is closed first: a run from the
    start, which keeps the rules but for this one step, to a failed assertion. */
module OuterFirst {
  import opened Endpoint
  import opened References
  import opened Safety
  import opened Session
  import opened Transactions
  import opened Rules

  // ---------------------------------------------------------------- the two moments

  /** A message whose circuit is closed is thrown away, even if its transaction is open, which then
      stays open. */
  lemma Orphan(e: End, c: Name, cmd: Cmd)
    requires Sound(e) && c.Name? && c.parent.Name? && c.parent.id != 0
    requires forall u {:trigger u in Alive(e)} :: u in Alive(e) && u.Name? && u.side == c.parent.side ==> u.id != c.parent.id
    ensures var r := MsgRx(e, MsgOf(Other(e.me), c, cmd)); r.Discard? && Alive(r.value) == Alive(e)
  {
    hide Sound, Alive, MsgRx;
    MsgRxOk(e, MsgOf(Other(e.me), c, cmd));
    LookupSome(e, c.parent.side, c.parent.id);
  }

  /** A message that opens a transaction with a msgid under which one of its side is still open
      fails an assertion. */
  lemma Reuse(e: End, c: Name, t: Name, del: bool)
    requires Sound(e) && c in Alive(e) && t.Name? && t.side == c.side == Other(e.me) && t.id == c.id && t.parent == Root
    ensures MsgRx(e, MsgOf(Other(e.me), t, Cmd(true, del, false))) == Fault
  {
    hide Sound, Alive, MsgRx;
    Lookup(e, c);
    MsgRxOk(e, MsgOf(Other(e.me), t, Cmd(true, del, false)));
  }

  // ---------------------------------------------------------------- a run

  const OUTER := Name(A, 0, 1, Root)
  const INNER := Name(A, 1, 2, OUTER)
  /** The msgid of the inner transaction, used again. */
  const AGAIN := Name(A, 2, 2, Root)

  const NO := Cmd(false, false, false)
  const R := Cmd(false, false, true)
  const C := Cmd(true, false, false)
  const CD := Cmd(true, true, false)
  const CDR := Cmd(true, true, true)
  const D := Cmd(false, true, false)

  const LEFT_0: End := Fresh(A)
  const RIGHT_0: End := Fresh(B)

  const LEFT_1: End := End(A, map[Root := St(NO, NO, false, false, {OUTER}, 2), OUTER := St(NO, R, true, true, {}, 3)],
      map[1 := OUTER], map[], [], [])

  const LEFT_2: End := End(A, map[Root := St(NO, NO, false, false, {OUTER}, 2), OUTER := St(C, R, true, true, {}, 3)],
      map[1 := OUTER], map[], [Msg(OUTER, C, 1, 0, false, false)], [])

  const LEFT_3: End := End(A,
    map[Root := St(NO, NO, false, false, {OUTER}, 2), OUTER := St(C, R, true, true, {INNER}, 4), INNER := St(NO, R, true, true, {}, 3)],
    map[1 := OUTER, 2 := INNER], map[], [Msg(OUTER, C, 1, 0, false, false)], [])

  const LEFT_4: End := End(A,
    map[Root := St(NO, NO, false, false, {OUTER}, 2), OUTER := St(C, R, true, true, {INNER}, 4), INNER := St(C, R, true, true, {}, 3)],
    map[1 := OUTER, 2 := INNER], map[], [Msg(OUTER, C, 1, 0, false, false), Msg(INNER, C, 2, 1, false, false)], [])

  const LEFT_5: End := End(A,
    map[Root := St(NO, NO, false, false, {OUTER}, 2), OUTER := St(C, R, true, true, {INNER}, 3), INNER := St(C, R, true, true, {}, 3)],
    map[1 := OUTER, 2 := INNER], map[], [Msg(INNER, C, 2, 1, false, false)], [])

  const LEFT_6: End := End(A,
    map[Root := St(NO, NO, false, false, {OUTER}, 2), OUTER := St(C, R, true, true, {INNER}, 3), INNER := St(C, R, true, true, {}, 2)],
    map[1 := OUTER, 2 := INNER], map[], [], [])

  const RIGHT_1: End := End(B, map[Root := St(NO, NO, false, false, {OUTER}, 4), OUTER := St(R, C, true, true, {}, 3)],
      map[], map[1 := OUTER], [], [OUTER])

  const RIGHT_2: End := End(B,
    map[Root := St(NO, NO, false, false, {OUTER}, 5), OUTER := St(R, C, true, true, {INNER}, 5), INNER := St(R, C, true, true, {}, 3)],
    map[], map[1 := OUTER, 2 := INNER], [], [OUTER, INNER])

  const RIGHT_3: End := End(B,
    map[Root := St(NO, NO, false, false, {OUTER}, 5), OUTER := St(R, C, true, true, {INNER}, 5), INNER := St(CDR, C, true, true, {}, 4)],
    map[], map[1 := OUTER, 2 := INNER], [Msg(INNER, CDR, 2, 1, true, true)], [OUTER, INNER])

  const RIGHT_4: End := End(B,
    map[Root := St(NO, NO, false, false, {OUTER}, 5), OUTER := St(CDR, C, true, true, {INNER}, 6), INNER := St(CDR, C, true, true, {}, 4)],
    map[], map[1 := OUTER, 2 := INNER], [Msg(INNER, CDR, 2, 1, true, true), Msg(OUTER, CDR, 1, 0, true, false)], [OUTER, INNER])

  const LEFT_7: End := End(A,
    map[Root := St(NO, NO, false, false, {OUTER}, 2), OUTER := St(CD, R, true, true, {INNER}, 4), INNER := St(C, R, true, true, {}, 2)],
    map[1 := OUTER, 2 := INNER], map[], [Msg(OUTER, D, 1, 0, false, false)], [])

  const LEFT_8: End := End(A,
    map[Root := St(NO, NO, false, false, {OUTER}, 2), OUTER := St(CD, R, true, true, {INNER}, 4), INNER := St(CD, R, true, true, {}, 3)],
    map[1 := OUTER, 2 := INNER], map[], [Msg(OUTER, D, 1, 0, false, false), Msg(INNER, D, 2, 1, false, false)], [])

  const LEFT_9: End := End(A,
    map[Root := St(NO, NO, false, false, {OUTER}, 2), OUTER := St(CD, R, true, true, {INNER}, 3), INNER := St(CD, R, true, true, {}, 3)],
    map[1 := OUTER, 2 := INNER], map[], [Msg(INNER, D, 2, 1, false, false)], [])

  const LEFT_10: End := End(A,
    map[Root := St(NO, NO, false, false, {OUTER}, 2), OUTER := St(CD, R, true, true, {INNER}, 3), INNER := St(CD, R, true, true, {}, 2)],
    map[1 := OUTER, 2 := INNER], map[], [], [])

  const RIGHT_5: End := End(B,
    map[Root := St(NO, NO, false, false, {OUTER}, 5), OUTER := St(CDR, C, true, true, {INNER}, 6), INNER := St(CDR, C, true, true, {}, 3)],
    map[], map[1 := OUTER, 2 := INNER], [Msg(OUTER, CDR, 1, 0, true, false)], [OUTER, INNER])

  const RIGHT_6: End := End(B,
    map[Root := St(NO, NO, false, false, {OUTER}, 5), OUTER := St(CDR, C, true, true, {INNER}, 5), INNER := St(CDR, C, true, true, {}, 3)],
    map[], map[1 := OUTER, 2 := INNER], [], [OUTER, INNER])

  const RIGHT_7: End := End(B, map[Root := St(NO, NO, false, false, {OUTER}, 5),
    OUTER := St(CDR, CD, false, true, {INNER}, 5), INNER := St(CDR, C, true, true, {}, 3)],
      map[], map[2 := INNER], [], [OUTER, INNER, OUTER])

  const LEFT_11: End := End(A,
    map[Root := St(NO, NO, false, false, {OUTER}, 2), OUTER := St(CD, R, true, true, {INNER}, 3), INNER := St(CD, CDR, false, true, {}, 2)],
    map[1 := OUTER], map[], [], [INNER])

  const LEFT_12: End := End(A, map[Root := St(NO, NO, false, false, {OUTER}, 2),
    OUTER := St(CD, CDR, false, true, {INNER}, 3), INNER := St(CD, CDR, false, true, {}, 2)],
      map[], map[], [], [INNER, OUTER])

  const LEFT_13: End := End(A, map[Root := St(NO, NO, false, false, {OUTER}, 2), OUTER := St(CD, CDR, false, true, {}, 2)],
      map[], map[], [], [OUTER])

  const LEFT_14: End := End(A, map[Root := St(NO, NO, false, false, {}, 1)],
      map[], map[], [], [])

  const LEFT_15: End := End(A, map[Root := St(NO, NO, false, false, {AGAIN}, 2), AGAIN := St(NO, R, true, true, {}, 3)],
      map[2 := AGAIN], map[], [], [])

  const LEFT_16: End := End(A, map[Root := St(NO, NO, false, false, {AGAIN}, 2), AGAIN := St(C, R, true, true, {}, 3)],
      map[2 := AGAIN], map[], [Msg(AGAIN, C, 2, 0, false, false)], [])

  const LEFT_17: End := End(A, map[Root := St(NO, NO, false, false, {AGAIN}, 2), AGAIN := St(C, R, true, true, {}, 2)],
      map[2 := AGAIN], map[], [], [])

  const Y_0 := System(LEFT_0, RIGHT_0, [], [])
  const Y_1 := System(LEFT_1, RIGHT_0, [], [])
  const Y_2 := System(LEFT_2, RIGHT_0, [], [])
  const Y_3 := System(LEFT_3, RIGHT_0, [], [])
  const Y_4 := System(LEFT_4, RIGHT_0, [], [])
  const Y_5 := System(LEFT_5, RIGHT_0, [Msg(OUTER, C, 1, 0, false, false)], [])
  const Y_6 := System(LEFT_6, RIGHT_0, [Msg(OUTER, C, 1, 0, false, false), Msg(INNER, C, 2, 1, false, false)], [])
  const Y_7 := System(LEFT_6, RIGHT_1, [Msg(INNER, C, 2, 1, false, false)], [])
  const Y_8 := System(LEFT_6, RIGHT_2, [], [])
  const Y_9 := System(LEFT_6, RIGHT_3, [], [])
  const Y_10 := System(LEFT_6, RIGHT_4, [], [])
  const Y_11 := System(LEFT_7, RIGHT_4, [], [])
  const Y_12 := System(LEFT_8, RIGHT_4, [], [])
  const Y_13 := System(LEFT_9, RIGHT_4, [Msg(OUTER, D, 1, 0, false, false)], [])
  const Y_14 := System(LEFT_10, RIGHT_4, [Msg(OUTER, D, 1, 0, false, false), Msg(INNER, D, 2, 1, false, false)], [])
  const Y_15 := System(LEFT_10, RIGHT_5, [Msg(OUTER, D, 1, 0, false, false), Msg(INNER, D, 2, 1, false, false)],
    [Msg(INNER, CDR, 2, 1, true, true)])
  const Y_16 := System(LEFT_10, RIGHT_6, [Msg(OUTER, D, 1, 0, false, false), Msg(INNER, D, 2, 1, false, false)],
    [Msg(INNER, CDR, 2, 1, true, true), Msg(OUTER, CDR, 1, 0, true, false)])
  const Y_17 := System(LEFT_10, RIGHT_7, [Msg(INNER, D, 2, 1, false, false)],
    [Msg(INNER, CDR, 2, 1, true, true), Msg(OUTER, CDR, 1, 0, true, false)])
  const Y_18 := System(LEFT_10, RIGHT_7, [], [Msg(INNER, CDR, 2, 1, true, true), Msg(OUTER, CDR, 1, 0, true, false)])
  const Y_19 := System(LEFT_11, RIGHT_7, [], [Msg(OUTER, CDR, 1, 0, true, false)])
  const Y_20 := System(LEFT_12, RIGHT_7, [], [])
  const Y_21 := System(LEFT_13, RIGHT_7, [], [])
  const Y_22 := System(LEFT_14, RIGHT_7, [], [])
  const Y_23 := System(LEFT_15, RIGHT_7, [], [])
  const Y_24 := System(LEFT_16, RIGHT_7, [], [])
  const Y_25 := System(LEFT_17, RIGHT_7, [Msg(AGAIN, C, 2, 0, false, false)], [])

  /** Two ends are the same if their parts are. */
  lemma Same(e: End, f: End)
    requires e.me == f.me && e.states == f.states && e.statewr == f.statewr &&
      e.staterd == f.staterd && e.txmsgq == f.txmsgq && e.cur == f.cur
    ensures e == f
  {}

  lemma SameAll(y: System, z: System)
    requires y.a == z.a && y.b == z.b && y.ab == z.ab && y.ba == z.ba
    ensures y == z
  {}

  /** Closing one direction of a transaction whose other direction is open. */
  lemma CloseHalf(e: End, t: Name)
    requires t in e.states && t.Name? && !e.states[t].tx.del && !e.states[t].rx.del && !Unwritten(e, t) && e.states[t].refs > 0
    ensures var s := e.states[t];
      Send(e, t, true) == Ok(Set(e, t, s.(tx := s.tx.(create := true, del := true), refs := s.refs + 1)).(
        txmsgq := e.txmsgq + [Header(e, t, Cmd(!s.tx.create, true, s.tx.reply))]))
  {
    hide CleanupTx;
    var s, cmd := e.states[t], Cmd(!e.states[t].tx.create, true, e.states[t].tx.reply);
    var s1 := s.(tx := s.tx.(create := true), refs := s.refs + 1);
    SetTwice(e, t, s.(refs := s.refs + 1), s1);
    CleanHalf(Set(e, t, s1), t, cmd);
    SetTwice(e, t, s1, s1.(tx := s1.tx.(del := true)));
  }

  lemma CleanHalf(e: End, t: Name, cmd: Cmd)
    requires t in e.states && t.Name? && !e.states[t].tx.del && !e.states[t].rx.del && e.states[t].refs > 0 && cmd.del
    ensures CleanupTx(e, t, cmd) == Ok(Set(e, t, e.states[t].(tx := e.states[t].tx.(del := true))))
  {
    var s := e.states[t];
    var s1 := s.(refs := s.refs + 1);
    var s2 := s1.(tx := s.tx.(del := true));
    SetTwice(e, t, s1, s2);
    SetTwice(e, t, s2, s2.(refs := s.refs));
  }

  lemma SetTwice(e: End, t: Name, a: St, b: St)
    ensures Set(Set(e, t, a), t, b) == Set(e, t, b)
  {
    assert e.states[t := a][t := b] == e.states[t := b];
  }

  lemma Elements()
    ensures var none: set<Name> := {}; forall t: Name {:trigger none + {t}} {:trigger {t} - {t}} :: none + {t} == {t} && {t} - {t} == none
  {}

  /** DELETE on a top-level transaction whose other direction is closed. */
  lemma LastDelete(e: End, t: Name)
    requires Root in e.states && e.states[Root].refs > 0 && t in e.states && t.Name? &&
      t.parent == Root && t.side != e.me && t.id in e.staterd && e.staterd[t.id] == t
    requires var s := e.states[t]; s.inTree && s.inSubq && s.tx.del && !s.rx.del && s.rx.create && !s.rx.reply && s.refs > 0
    ensures var s := e.states[t];
      MsgRx(e, Msg(t, D, t.id, 0, false, false)) ==
        Ok(Set(e, t, s.(rx := s.rx.(del := true), inTree := false)).(staterd := e.staterd - {t.id}, cur := e.cur + [t]))
  {
    var s := e.states[t];
    var root := e.states[Root];
    SetTwice(e, Root, root.(refs := root.refs + 1), root);
    assert e.states[Root := root] == e.states;
    var s1 := s.(refs := s.refs + 1);
    var s2 := s1.(rx := s.rx.(del := true));
    var s3 := s2.(inTree := false);
    SetTwice(e, t, s1, s2);
    SetTwice(e, t, s2, s3);
    SetTwice(e, t, s3, s3.(refs := s.refs));
    var e3 := Set(e, t, s3).(staterd := e.staterd - {t.id});
    assert RxKnown(Set(e, t, s1), t, D) == RxDelete(Set(e, t, s1), t, D);
    assert Drop(e3, t) == Ok(Set(e3, t, s3.(refs := s.refs)));
  }

  lemma Step1()
    ensures Next(Y_0, Opens(A, Root, 0, 1)) == Ok(Y_1) && Disciplined(Y_0, Opens(A, Root, 0, 1))
  {
    Elements();
    Same(Open(LEFT_0, Root, 0, 1).value, LEFT_1);
    SameAll(Next(Y_0, Opens(A, Root, 0, 1)).value, Y_1);
  }

  lemma Step2()
    ensures Next(Y_1, Sends(A, OUTER, false)) == Ok(Y_2) && Disciplined(Y_1, Sends(A, OUTER, false))
  {
    Elements();
    Same(Send(LEFT_1, OUTER, false).value, LEFT_2);
    SameAll(Next(Y_1, Sends(A, OUTER, false)).value, Y_2);
  }

  lemma Step3()
    ensures Next(Y_2, Opens(A, OUTER, 1, 2)) == Ok(Y_3) && Disciplined(Y_2, Opens(A, OUTER, 1, 2))
  {
    Elements();
    Same(Open(LEFT_2, OUTER, 1, 2).value, LEFT_3);
    SameAll(Next(Y_2, Opens(A, OUTER, 1, 2)).value, Y_3);
  }

  lemma Step4()
    ensures Next(Y_3, Sends(A, INNER, false)) == Ok(Y_4) && Disciplined(Y_3, Sends(A, INNER, false))
  {
    Elements();
    Same(Send(LEFT_3, INNER, false).value, LEFT_4);
    SameAll(Next(Y_3, Sends(A, INNER, false)).value, Y_4);
  }

  lemma Step5()
    ensures Next(Y_4, Flushes(A)) == Ok(Y_5) && Disciplined(Y_4, Flushes(A))
  {
    Elements();
    Same(Flush(LEFT_4).value, LEFT_5);
    SameAll(Next(Y_4, Flushes(A)).value, Y_5);
  }

  lemma Step6()
    ensures Next(Y_5, Flushes(A)) == Ok(Y_6) && Disciplined(Y_5, Flushes(A))
  {
    Elements();
    Same(Flush(LEFT_5).value, LEFT_6);
    SameAll(Next(Y_5, Flushes(A)).value, Y_6);
  }

  lemma Step7()
    ensures Next(Y_6, Receives(B)) == Ok(Y_7) && Disciplined(Y_6, Receives(B))
  {
    Elements();
    Same(MsgRx(RIGHT_0, Msg(OUTER, C, 1, 0, false, false)).value, RIGHT_1);
    SameAll(Next(Y_6, Receives(B)).value, Y_7);
  }

  lemma Step8()
    ensures Next(Y_7, Receives(B)) == Ok(Y_8) && Disciplined(Y_7, Receives(B))
  {
    Elements();
    Same(MsgRx(RIGHT_1, Msg(INNER, C, 2, 1, false, false)).value, RIGHT_2);
    SameAll(Next(Y_7, Receives(B)).value, Y_8);
  }

  lemma Part9()
    ensures Send(RIGHT_2, INNER, true) == Ok(RIGHT_3)
  {
    hide Send;
    CloseHalf(RIGHT_2, INNER);
    Same(Send(RIGHT_2, INNER, true).value, RIGHT_3);
  }

  lemma Step9()
    ensures Next(Y_8, Sends(B, INNER, true)) == Ok(Y_9) && Disciplined(Y_8, Sends(B, INNER, true))
  {
    hide Send;
    Part9();
    NoneBelowIsEnough(Y_8, B, INNER);
    SameAll(Next(Y_8, Sends(B, INNER, true)).value, Y_9);
  }

  lemma Part10()
    ensures Send(RIGHT_3, OUTER, true) == Ok(RIGHT_4)
  {
    hide Send;
    CloseHalf(RIGHT_3, OUTER);
    Same(Send(RIGHT_3, OUTER, true).value, RIGHT_4);
  }

  lemma Step10()
    ensures Next(Y_9, Sends(B, OUTER, true)) == Ok(Y_10) && Disciplined(Y_9, Sends(B, OUTER, true))
  {
    hide Send;
    Part10();
    NoneBelowIsEnough(Y_9, B, OUTER);
    SameAll(Next(Y_9, Sends(B, OUTER, true)).value, Y_10);
  }

  lemma Part11()
    ensures Send(LEFT_6, OUTER, true) == Ok(LEFT_7)
  {
    hide Send;
    CloseHalf(LEFT_6, OUTER);
    Same(Send(LEFT_6, OUTER, true).value, LEFT_7);
  }

  lemma Step11()
    ensures Next(Y_10, Sends(A, OUTER, true)) == Ok(Y_11)
  {
    hide Send;
    Part11();
    SameAll(Next(Y_10, Sends(A, OUTER, true)).value, Y_11);
  }

  lemma Part12()
    ensures Send(LEFT_7, INNER, true) == Ok(LEFT_8)
  {
    hide Send;
    CloseHalf(LEFT_7, INNER);
    Same(Send(LEFT_7, INNER, true).value, LEFT_8);
  }

  lemma Step12()
    ensures Next(Y_11, Sends(A, INNER, true)) == Ok(Y_12) && Disciplined(Y_11, Sends(A, INNER, true))
  {
    hide Send;
    Part12();
    NoneBelowIsEnough(Y_11, A, INNER);
    SameAll(Next(Y_11, Sends(A, INNER, true)).value, Y_12);
  }

  lemma Step13()
    ensures Next(Y_12, Flushes(A)) == Ok(Y_13) && Disciplined(Y_12, Flushes(A))
  {
    Elements();
    Same(Flush(LEFT_8).value, LEFT_9);
    SameAll(Next(Y_12, Flushes(A)).value, Y_13);
  }

  lemma Step14()
    ensures Next(Y_13, Flushes(A)) == Ok(Y_14) && Disciplined(Y_13, Flushes(A))
  {
    Elements();
    Same(Flush(LEFT_9).value, LEFT_10);
    SameAll(Next(Y_13, Flushes(A)).value, Y_14);
  }

  lemma Step15()
    ensures Next(Y_14, Flushes(B)) == Ok(Y_15) && Disciplined(Y_14, Flushes(B))
  {
    Elements();
    Same(Flush(RIGHT_4).value, RIGHT_5);
    SameAll(Next(Y_14, Flushes(B)).value, Y_15);
  }

  lemma Step16()
    ensures Next(Y_15, Flushes(B)) == Ok(Y_16) && Disciplined(Y_15, Flushes(B))
  {
    Elements();
    Same(Flush(RIGHT_5).value, RIGHT_6);
    SameAll(Next(Y_15, Flushes(B)).value, Y_16);
  }

  lemma Part17()
    ensures MsgRx(RIGHT_6, Msg(OUTER, D, 1, 0, false, false)) == Ok(RIGHT_7)
  {
    hide MsgRx;
    LastDelete(RIGHT_6, OUTER);
    Same(MsgRx(RIGHT_6, Msg(OUTER, D, 1, 0, false, false)).value, RIGHT_7);
  }

  lemma Step17()
    ensures Next(Y_16, Receives(B)) == Ok(Y_17) && Disciplined(Y_16, Receives(B))
  {
    hide MsgRx;
    Part17();
    SameAll(Next(Y_16, Receives(B)).value, Y_17);
  }

  lemma Step18()
    ensures Next(Y_17, Receives(B)) == Discard(Y_18) && Disciplined(Y_17, Receives(B))
  {
    Elements();
    Same(MsgRx(RIGHT_7, Msg(INNER, D, 2, 1, false, false)).value, RIGHT_7);
    SameAll(Next(Y_17, Receives(B)).value, Y_18);
  }

  lemma Part19()
    ensures MsgRx(LEFT_10, Msg(INNER, CDR, 2, 1, true, true)) == Ok(LEFT_11)
  {
    Same(MsgRx(LEFT_10, Msg(INNER, CDR, 2, 1, true, true)).value, LEFT_11);
  }

  lemma Step19()
    ensures Next(Y_18, Receives(A)) == Ok(Y_19) && Disciplined(Y_18, Receives(A))
  {
    hide MsgRx;
    Part19();
    SameAll(Next(Y_18, Receives(A)).value, Y_19);
  }

  lemma Part20()
    ensures MsgRx(LEFT_11, Msg(OUTER, CDR, 1, 0, true, false)) == Ok(LEFT_12)
  {
    Same(MsgRx(LEFT_11, Msg(OUTER, CDR, 1, 0, true, false)).value, LEFT_12);
  }

  lemma Step20()
    ensures Next(Y_19, Receives(A)) == Ok(Y_20) && Disciplined(Y_19, Receives(A))
  {
    hide MsgRx;
    Part20();
    SameAll(Next(Y_19, Receives(A)).value, Y_20);
  }

  lemma Step21()
    ensures Next(Y_20, CleansUp(A)) == Ok(Y_21) && Disciplined(Y_20, CleansUp(A))
  {
    Elements();
    Same(CleanupRx(LEFT_12).value, LEFT_13);
    SameAll(Next(Y_20, CleansUp(A)).value, Y_21);
  }

  lemma Step22()
    ensures Next(Y_21, CleansUp(A)) == Ok(Y_22) && Disciplined(Y_21, CleansUp(A))
  {
    Elements();
    Same(CleanupRx(LEFT_13).value, LEFT_14);
    SameAll(Next(Y_21, CleansUp(A)).value, Y_22);
  }

  lemma Step23()
    ensures Next(Y_22, Opens(A, Root, 2, 2)) == Ok(Y_23) && Disciplined(Y_22, Opens(A, Root, 2, 2))
  {
    Elements();
    Same(Open(LEFT_14, Root, 2, 2).value, LEFT_15);
    SameAll(Next(Y_22, Opens(A, Root, 2, 2)).value, Y_23);
  }

  lemma Step24()
    ensures Next(Y_23, Sends(A, AGAIN, false)) == Ok(Y_24) && Disciplined(Y_23, Sends(A, AGAIN, false))
  {
    Elements();
    Same(Send(LEFT_15, AGAIN, false).value, LEFT_16);
    SameAll(Next(Y_23, Sends(A, AGAIN, false)).value, Y_24);
  }

  lemma Step25()
    ensures Next(Y_24, Flushes(A)) == Ok(Y_25) && Disciplined(Y_24, Flushes(A))
  {
    Elements();
    Same(Flush(LEFT_16).value, LEFT_17);
    SameAll(Next(Y_24, Flushes(A)).value, Y_25);
  }

  lemma Step26()
    ensures Next(Y_25, Receives(B)) == Fault && Disciplined(Y_25, Receives(B))
  {}
  // ---------------------------------------------------------------- the whole run

  ghost predicate Reaches(y: System, steps: seq<Step>, z: System) { Orderly(y, steps) && Exec(y, steps) == Ran(z, 0) }

  ghost predicate Fails(y: System, steps: seq<Step>) { Orderly(y, steps) && Exec(y, steps) == Failed }

  lemma ReachesBefore(y: System, step: Step, y1: System, steps: seq<Step>, z: System)
    requires Disciplined(y, step) && Next(y, step) == Ok(y1) && Reaches(y1, steps, z)
    ensures Reaches(y, [step] + steps, z)
  {
    assert ([step] + steps)[1..] == steps;
  }

  lemma FailsBefore(y: System, step: Step, y1: System, steps: seq<Step>)
    requires Disciplined(y, step) && (Next(y, step) == Ok(y1) || Next(y, step) == Discard(y1)) && Fails(y1, steps)
    ensures Fails(y, [step] + steps)
  {
    assert ([step] + steps)[1..] == steps;
  }

  lemma Beginning() returns (before: seq<Step>)
    ensures Reaches(Init(), before, Y_10)
  {
    hide Next, Reaches, Disciplined;
    before := [];
    assert Reaches(Y_10, before, Y_10) by { Nothing(Y_10); }
    Step10();
    ReachesBefore(Y_9, Sends(B, OUTER, true), Y_10, before, Y_10);
    before := [Sends(B, OUTER, true)] + before;
    Step9();
    ReachesBefore(Y_8, Sends(B, INNER, true), Y_9, before, Y_10);
    before := [Sends(B, INNER, true)] + before;
    Step8();
    ReachesBefore(Y_7, Receives(B), Y_8, before, Y_10);
    before := [Receives(B)] + before;
    Step7();
    ReachesBefore(Y_6, Receives(B), Y_7, before, Y_10);
    before := [Receives(B)] + before;
    Step6();
    ReachesBefore(Y_5, Flushes(A), Y_6, before, Y_10);
    before := [Flushes(A)] + before;
    Step5();
    ReachesBefore(Y_4, Flushes(A), Y_5, before, Y_10);
    before := [Flushes(A)] + before;
    Step4();
    ReachesBefore(Y_3, Sends(A, INNER, false), Y_4, before, Y_10);
    before := [Sends(A, INNER, false)] + before;
    Step3();
    ReachesBefore(Y_2, Opens(A, OUTER, 1, 2), Y_3, before, Y_10);
    before := [Opens(A, OUTER, 1, 2)] + before;
    Step2();
    ReachesBefore(Y_1, Sends(A, OUTER, false), Y_2, before, Y_10);
    before := [Sends(A, OUTER, false)] + before;
    Step1();
    ReachesBefore(Y_0, Opens(A, Root, 0, 1), Y_1, before, Y_10);
    before := [Opens(A, Root, 0, 1)] + before;
    assert Y_0 == Init();
  }

  lemma Nothing(y: System)
    ensures Reaches(y, [], y)
  {}

  lemma Ending() returns (after: seq<Step>)
    ensures Fails(Y_11, after)
  {
    hide Next, Fails, Disciplined;
    Step26();
    after := [Receives(B)];
    assert Fails(Y_25, after) by { FailsNow(Y_25, Receives(B)); }
    Step25();
    FailsBefore(Y_24, Flushes(A), Y_25, after);
    after := [Flushes(A)] + after;
    Step24();
    FailsBefore(Y_23, Sends(A, AGAIN, false), Y_24, after);
    after := [Sends(A, AGAIN, false)] + after;
    Step23();
    FailsBefore(Y_22, Opens(A, Root, 2, 2), Y_23, after);
    after := [Opens(A, Root, 2, 2)] + after;
    Step22();
    FailsBefore(Y_21, CleansUp(A), Y_22, after);
    after := [CleansUp(A)] + after;
    Step21();
    FailsBefore(Y_20, CleansUp(A), Y_21, after);
    after := [CleansUp(A)] + after;
    Step20();
    FailsBefore(Y_19, Receives(A), Y_20, after);
    after := [Receives(A)] + after;
    Step19();
    FailsBefore(Y_18, Receives(A), Y_19, after);
    after := [Receives(A)] + after;
    Step18();
    FailsBefore(Y_17, Receives(B), Y_18, after);
    after := [Receives(B)] + after;
    Step17();
    FailsBefore(Y_16, Receives(B), Y_17, after);
    after := [Receives(B)] + after;
    Step16();
    FailsBefore(Y_15, Flushes(B), Y_16, after);
    after := [Flushes(B)] + after;
    Step15();
    FailsBefore(Y_14, Flushes(B), Y_15, after);
    after := [Flushes(B)] + after;
    Step14();
    FailsBefore(Y_13, Flushes(A), Y_14, after);
    after := [Flushes(A)] + after;
    Step13();
    FailsBefore(Y_12, Flushes(A), Y_13, after);
    after := [Flushes(A)] + after;
    Step12();
    FailsBefore(Y_11, Sends(A, INNER, true), Y_12, after);
    after := [Sends(A, INNER, true)] + after;
  }

  lemma FailsNow(y: System, step: Step)
    requires Disciplined(y, step) && Next(y, step) == Fault
    ensures Fails(y, [step])
  {
    assert [step][1..] == [];
  }

  /** From the start, by steps that keep the rules, to a state in which A closes the outer one of two
      stacked transactions; from there on, again by steps that keep the rules, to a failed assertion. */
  lemma AssertionFails() returns (before: seq<Step>, after: seq<Step>)
    ensures Orderly(Init(), before) && Exec(Init(), before) == Ran(Y_10, 0)
    ensures Next(Y_10, Sends(A, OUTER, true)) == Ok(Y_11) && !MayClose(Y_10, A, OUTER)
    ensures Orderly(Y_11, after) && Exec(Y_11, after) == Failed
  {
    hide Next;
    before := Beginning();
    after := Ending();
    Step11();
    assert INNER in Alive(Y_10.a);
  }

  /** A transaction is opened under one whose first message has not been written: the peer will not
      know its circuit. */
  lemma OpenedTooEarly()
    ensures Orderly(Init(), [Opens(A, Root, 0, 1)]) && Exec(Init(), [Opens(A, Root, 0, 1)]) == Ran(Y_1, 0)
    ensures Next(Y_1, Opens(A, OUTER, 1, 2)).Ok? && Harmed(Next(Y_1, Opens(A, OUTER, 1, 2)).value)
  {
    EarlyRun();
    EarlyInv();
    EarlyNames();
    hide Inv, Next, Disciplined, Harmed, NewSerial, NewId, Exec, Orderly;
    assert !MayOpen(Y_1.a, OUTER);
    OpenExact(Y_1, A, OUTER, 1, 2);
  }

  lemma EarlyRun()
    ensures Orderly(Init(), [Opens(A, Root, 0, 1)]) && Exec(Init(), [Opens(A, Root, 0, 1)]) == Ran(Y_1, 0)
  {
    hide Next, Disciplined;
    Step1();
    assert [Opens(A, Root, 0, 1)][1..] == [];
  }

  lemma EarlyInv()
    ensures Inv(Y_1)
  {
    hide Inv, Next, Disciplined;
    Step1();
    InitInv();
    StepSafe(Y_0, Opens(A, Root, 0, 1));
  }

  lemma EarlyNames()
    ensures NewSerial(Y_1, A, 1) && NewId(Y_1.a, 2) && OUTER in Y_1.a.states
  {}
}
