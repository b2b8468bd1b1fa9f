/** A connection fails when the outer of two stacked transactions is closed on both sides and the
    inner one is not. */
module FailureExample {
  import opened Endpoint
  import opened References
  import opened Safety
  import opened Transactions
  import opened OuterFirst
  import opened LinkFailure

  const OPEN_OUTER := Msg(OUTER, C, 1, 0, false, false)
  const OPEN_INNER := Msg(INNER, C, 2, 1, false, false)
  const CLOSE_OUTER := Msg(OUTER, D, 1, 0, false, false)

  const REPLIED: End := End(B,
    map[Root := St(NO, NO, false, false, {OUTER}, 5), OUTER := St(CDR, C, true, true, {INNER}, 6), INNER := St(R, C, true, true, {}, 3)],
    map[], map[1 := OUTER, 2 := INNER], [Msg(OUTER, CDR, 1, 0, true, false)], [OUTER, INNER])

  const SENT: End := End(B,
    map[Root := St(NO, NO, false, false, {OUTER}, 5), OUTER := St(CDR, C, true, true, {INNER}, 5), INNER := St(R, C, true, true, {}, 3)],
    map[], map[1 := OUTER, 2 := INNER], [], [OUTER, INNER])

  const CLOSED: End := End(B,
    map[Root := St(NO, NO, false, false, {OUTER}, 5), OUTER := St(CDR, CD, false, true, {INNER}, 5), INNER := St(R, C, true, true, {}, 3)],
    map[], map[2 := INNER], [], [OUTER, INNER, OUTER])

  const CLEANED_1: End := End(B,
    map[Root := St(NO, NO, false, false, {}, 4), OUTER := St(CDR, CD, false, false, {INNER}, 3), INNER := St(R, C, true, true, {}, 3)],
    map[], map[2 := INNER], [], [INNER, OUTER])

  const CLEANED_2: End := End(B,
    map[Root := St(NO, NO, false, false, {}, 4), OUTER := St(CDR, CD, false, false, {INNER}, 3), INNER := St(R, C, true, true, {}, 2)],
    map[], map[2 := INNER], [], [OUTER])

  /** Nothing is being processed any more: the parent has left its queue, the child is open. */
  const PARTED: End := End(B,
    map[Root := St(NO, NO, false, false, {}, 4), OUTER := St(CDR, CD, false, false, {INNER}, 2), INNER := St(R, C, true, true, {}, 2)],
    map[], map[2 := INNER], [], [])

  lemma OpeningOuter()
    ensures MsgRx(RIGHT_0, OPEN_OUTER) == Ok(RIGHT_1)
  {
    Elements();
    Same(MsgRx(RIGHT_0, OPEN_OUTER).value, RIGHT_1);
  }

  lemma OpeningInner()
    ensures MsgRx(RIGHT_1, OPEN_INNER) == Ok(RIGHT_2)
  {
    Elements();
    Same(MsgRx(RIGHT_1, OPEN_INNER).value, RIGHT_2);
  }

  lemma Replying()
    ensures Send(RIGHT_2, OUTER, true) == Ok(REPLIED) && Flush(REPLIED) == Ok(SENT)
  {
    hide Send;
    CloseHalf(RIGHT_2, OUTER);
    Same(Send(RIGHT_2, OUTER, true).value, REPLIED);
    Same(Flush(REPLIED).value, SENT);
  }

  lemma Closing()
    ensures MsgRx(SENT, CLOSE_OUTER) == Ok(CLOSED)
  {
    hide MsgRx;
    LastDelete(SENT, OUTER);
    Same(MsgRx(SENT, CLOSE_OUTER).value, CLOSED);
  }

  lemma Cleaning()
    ensures CleanupRx(CLOSED) == Ok(CLEANED_1)
  {
    Elements();
    Same(CleanupRx(CLOSED).value, CLEANED_1);
  }

  lemma CleaningRest()
    ensures CleanupRx(CLEANED_1) == Ok(CLEANED_2) && CleanupRx(CLEANED_2) == Ok(PARTED)
  {
    Same(CleanupRx(CLEANED_1).value, CLEANED_2);
    Same(CleanupRx(CLEANED_2).value, PARTED);
  }

  /** The state is reached from the start: the peer opens two stacked transactions, this side
      replies to the outer one with DELETE, the peer closes that, and every message is cleaned up. */
  lemma PartedReached()
    ensures RIGHT_0 == Transactions.Fresh(B) && MsgRx(RIGHT_0, OPEN_OUTER) == Ok(RIGHT_1) && MsgRx(RIGHT_1, OPEN_INNER) == Ok(RIGHT_2)
    ensures Send(RIGHT_2, OUTER, true) == Ok(REPLIED) && Flush(REPLIED) == Ok(SENT) && MsgRx(SENT, CLOSE_OUTER) == Ok(CLOSED)
    ensures CleanupRx(CLOSED) == Ok(CLEANED_1) && CleanupRx(CLEANED_1) == Ok(CLEANED_2) && CleanupRx(CLEANED_2) == Ok(PARTED)
    ensures Sound(PARTED)
  {
    OpeningOuter();
    OpeningInner();
    Replying();
    Closing();
    Cleaning();
    CleaningRest();
    hide MsgRx, Send, Flush, CleanupRx, Sound;
    FreshSound(B);
    MsgRxOk(RIGHT_0, OPEN_OUTER);
    MsgRxOk(RIGHT_1, OPEN_INNER);
    SendOk(RIGHT_2, OUTER, true);
    FlushOk(REPLIED);
    MsgRxOk(SENT, CLOSE_OUTER);
    CleanupRxOk(CLOSED);
    CleanupRxOk(CLEANED_1);
    CleanupRxOk(CLEANED_2);
  }

  /** The failure does not come to the inner transaction, which stays open. */
  lemma LeftOpen(now: End, closes: Name -> bool)
    requires AfterFailure(PARTED, now, closes)
    ensures INNER in now.states && now.states[INNER].inTree && !ClosedRx(now, INNER)
  {
    assert !Reached(PARTED, OUTER) && !Reached(PARTED, INNER);
    assert Untouched(PARTED, now, INNER);
  }

  /** The connection of such an endpoint fails, whatever its handlers do. */
  method FailParted(closes: Name -> bool) returns (now: End)
    ensures Sound(now) && INNER in now.states && now.states[INNER].inTree && !ClosedRx(now, INNER)
  {
    PartedReached();
    var f := new Failure(PARTED, closes);
    f.ConnectionFailed();
    now := f.now;
    LeftOpen(now, closes);
  }
}
