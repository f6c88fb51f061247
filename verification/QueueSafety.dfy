/** Every run keeps exactly one live copy of every unfinished transaction, and finished rows stay finished. */
module QueueSafety {
  import opened Transactions
  import opened QueueSpec

  // ---- What a copy stands for ----

  predicate Holds(s: State, id: CopyId, u: nat) {
    id in s.copies && s.copies[id].msg.Tx? && s.copies[id].msg.uuid == u
  }

  /** Places where a message has not been looked at since it was written. */
  predicate Fresh(place: Place) {
    !place.Delivered? || place.point.FetchingWallet? || place.point.FetchingBalance?
  }

  predicate Pledged(place: Place) {
    place.Delivered? && place.point.Wrote?
  }

  /** The status a copy stands for: its message's, or the one its handler has just written. */
  function EffectiveStatus(copy: Copy): TxStatus
    requires copy.msg.Tx?
  {
    match copy.place
    case Delivered(Wrote(ToPending)) => Pending
    case Delivered(Wrote(ToFailed(status))) => status
    case Delivered(Wrote(ToComplete(_))) => Complete
    case Delivered(Writing(ToAddress(_))) => Complete
    case Delivered(Wrote(ToAddress(_))) => Complete
    case Delivered(Writing(ToProject(_))) => Complete
    case Delivered(Wrote(ToProject(_))) => Complete
    case _ => copy.msg.status
  }

  function EffectiveRetries(copy: Copy): Retries
    requires copy.msg.Tx?
  {
    match copy.place
    case Delivered(Wrote(ToRetry(n))) => Tries(n)
    case _ => copy.msg.retries
  }

  /** A copy's message has the status its handler's position needs. */
  predicate Fits(msg: Message, place: Place)
    requires msg.Tx?
  {
    match place
    case Submitting => msg.status.Initial?
    case Pushing => true
    case Queued => true
    case Delivered(point) =>
      match point
      case FetchingWallet => true
      case FetchingBalance => true
      case RecheckingBalance => msg.status.Initial?
      case Withheld => msg.status.Initial?
      case Broadcasting => msg.status.Initial?
      case DecodingFirst(_) => msg.status.Initial?
      case Waiting => msg.status.Pending?
      case FetchingFlag => msg.status.Pending?
      case FetchingReceipt => msg.status.Pending?
      case DecodingFinal(_) => msg.status.Pending?
      case Writing(w) => FitsWrite(msg, w)
      case Wrote(w) => FitsWrite(msg, w)
      case Posting => !Live(msg.status)
  }

  predicate FitsWrite(msg: Message, w: Write)
    requires msg.Tx?
  {
    match w
    case ToPending => msg.status.Initial?
    case ToRetry(n) => msg.status.Pending? && msg.retries.Tries? && n == msg.retries.n + 1
    case ToFailed(status) =>
      if msg.status.Initial? then status.FailedReceipt? || status.FailedInitial?
      else msg.status.Pending? && (status.FailedTimeout? || status.FailedPending?)
    case ToComplete(_) => msg.status.Pending?
    case ToAddress(_) => msg.status.Pending?
    case ToProject(_) => msg.status.Pending?
  }

  /** Retry counters agree; after a restart a rebuilt message may read a missing column as zero. */
  predicate SameRetries(restarts: nat, copy: Retries, row: Retries) {
    copy == row || (restarts > 0 && row == Absent && copy == Tries(0))
  }

  predicate Agrees(restarts: nat, copy: Copy, row: Row)
    requires copy.msg.Tx?
  {
    && Fits(copy.msg, copy.place)
    && EffectiveStatus(copy) == row.status
    && SameRetries(restarts, EffectiveRetries(copy), row.retries)
    && copy.msg.deploy == row.deploy
    && copy.msg.callback == row.callback
    && copy.msg.project == row.project
  }

  // ---- The invariant ----

  ghost predicate Matched(s: State) {
    forall id :: id in s.copies && s.copies[id].msg.Tx? ==>
      s.copies[id].msg.uuid in s.rows &&
      Agrees(s.history.restarts, s.copies[id], s.rows[s.copies[id].msg.uuid])
  }

  ghost predicate Unique(s: State) {
    forall id, id' | id in s.copies && id' in s.copies && s.copies[id].msg.Tx? && s.copies[id'].msg.Tx? ::
      s.copies[id].msg.uuid == s.copies[id'].msg.uuid ==> id == id'
  }

  ghost predicate Covered(s: State) {
    forall u :: u in s.rows && Live(s.rows[u].status) ==> exists id :: Holds(s, id, u)
  }

  ghost predicate Numbered(s: State) {
    forall n: nat :: Pushed(n) in s.copies ==> n < s.nextPush
  }

  ghost predicate Inv(s: State) {
    Matched(s) && Unique(s) && Covered(s) && Numbered(s)
  }

  // ---- Preservation, by the kind of change a step makes ----

  /** Adding a copy under a new number. */
  lemma AddCopy(s: State, copy: Copy, r: Row, s': State)
    requires Inv(s)
    requires s'.copies == s.copies[Pushed(s.nextPush) := copy] && s'.nextPush == s.nextPush + 1
    requires s'.history.restarts == s.history.restarts
    requires if copy.msg.Garbled? then s'.rows == s.rows
             else copy.msg.uuid !in s.rows
                  && s'.rows == s.rows[copy.msg.uuid := r] && Agrees(s.history.restarts, copy, r)
    ensures Inv(s')
  {
    var next := Pushed(s.nextPush);
    assert next !in s.copies;
    forall u | u in s'.rows && Live(s'.rows[u].status)
      ensures exists id :: Holds(s', id, u)
    {
      if copy.msg.Tx? && u == copy.msg.uuid {
        assert Holds(s', next, u);
      } else {
        var id :| Holds(s, id, u);
        assert Holds(s', id, u);
      }
    }
  }

  /** Changing one copy, and possibly the row of the same transaction. */
  lemma ChangeCopy(s: State, id: CopyId, copy: Copy, r: Row, s': State)
    requires Inv(s) && id in s.copies
    requires s'.copies == s.copies[id := copy] && s'.nextPush == s.nextPush
    requires s'.history.restarts == s.history.restarts
    requires if s.copies[id].msg.Garbled? then copy.msg.Garbled? && s'.rows == s.rows
             else copy.msg.Tx? && copy.msg.uuid == s.copies[id].msg.uuid
                  && s'.rows == s.rows[copy.msg.uuid := r] && Agrees(s.history.restarts, copy, r)
    ensures Inv(s')
  {
    forall u | u in s'.rows && Live(s'.rows[u].status)
      ensures exists id' :: Holds(s', id', u)
    {
      if copy.msg.Tx? && u == copy.msg.uuid {
        assert Holds(s', id, u);
      } else {
        var id' :| Holds(s, id', u);
        assert Holds(s', id', u);
      }
    }
  }

  /** Removing a copy that stands for nothing live. */
  lemma RemoveCopy(s: State, id: CopyId, s': State)
    requires Inv(s) && id in s.copies
    requires s'.copies == s.copies - {id} && s'.nextPush == s.nextPush && s'.rows == s.rows
    requires s'.history.restarts == s.history.restarts
    requires s.copies[id].msg.Tx? ==> !Live(EffectiveStatus(s.copies[id]))
    ensures Inv(s')
  {
    forall u | u in s'.rows && Live(s'.rows[u].status)
      ensures exists id' :: Holds(s', id', u)
    {
      var id' :| Holds(s, id', u);
      assert id' != id;
      assert Holds(s', id', u);
    }
  }

  /** Acknowledging one delivery while pushing its successor. */
  lemma ReplaceCopy(s: State, id: CopyId, msg: Message)
    requires Inv(s) && id in s.copies && s.copies[id].msg.Tx? && msg.Tx?
    requires msg.uuid == s.copies[id].msg.uuid
    requires Agrees(s.history.restarts, Copy(msg, Pushing), s.rows[msg.uuid])
    ensures Inv(Requeue(s, id, msg))
  {
    var s' := Requeue(s, id, msg);
    var next := Pushed(s.nextPush);
    forall u | u in s'.rows && Live(s'.rows[u].status)
      ensures exists id' :: Holds(s', id', u)
    {
      if u == msg.uuid {
        assert Holds(s', next, u);
      } else {
        var id' :| Holds(s, id', u);
        assert Holds(s', id', u);
      }
    }
  }

  lemma SameRow(s: State, u: nat)
    requires u in s.rows
    ensures s.rows == s.rows[u := s.rows[u]]
  {
  }

  /** Moving a copy to another place of the same standing. */
  lemma MoveCopy(s: State, id: CopyId, place: Place, s': State)
    requires Inv(s) && id in s.copies
    requires s'.copies == s.copies[id := s.copies[id].(place := place)] && s'.nextPush == s.nextPush
    requires s'.rows == s.rows && s'.history.restarts == s.history.restarts
    requires s.copies[id].msg.Tx? ==>
               var copy := s.copies[id].(place := place);
               Fits(copy.msg, place) && EffectiveStatus(copy) == EffectiveStatus(s.copies[id])
               && EffectiveRetries(copy) == EffectiveRetries(s.copies[id])
    ensures Inv(s')
  {
    var copy := s.copies[id].(place := place);
    if copy.msg.Tx? {
      SameRow(s, copy.msg.uuid);
      ChangeCopy(s, id, copy, s.rows[copy.msg.uuid], s');
    } else {
      ChangeCopy(s, id, copy, Row(Initial, Absent, false, None, 0, None, None), s');
    }
  }

  lemma KeepAtDispatch(c: Config, s: State, id: CopyId, reading: real)
    requires Inv(s) && At(s, id, FetchingBalance)
    ensures Inv(OnBalance(c, s, id, reading))
  {
    var s' := OnBalance(c, s, id, reading);
    if s.copies[id].msg.Garbled? || !Live(s.copies[id].msg.status) {
      RemoveCopy(s, id, s');
    } else if s.copies[id].msg.status.Initial? {
      MoveCopy(s, id, Delivered(RecheckingBalance), s');
    } else {
      MoveCopy(s, id, Delivered(Waiting), s');
    }
  }

  lemma KeepAtWrite(s: State, id: CopyId, w: Write)
    requires Inv(s) && TxAt(s, id, Writing(w))
    ensures Inv(OnApplied(s, id, w))
  {
    var m := s.copies[id].msg;
    var r := WriteRow(s.rows[m.uuid], w);
    var copy := Copy(m, Delivered(Wrote(w)));
    assert Agrees(s.history.restarts, s.copies[id], s.rows[m.uuid]);
    assert Agrees(s.history.restarts, copy, r);
    ChangeCopy(s, id, copy, r, OnApplied(s, id, w));
  }

  lemma KeepAtReport(s: State, id: CopyId, status: TxStatus, events: Option<Events>)
    requires Inv(s) && id in s.copies && s.copies[id].msg.Tx?
    requires !Live(status) && EffectiveStatus(s.copies[id]) == status
    requires EffectiveRetries(s.copies[id]) == s.copies[id].msg.retries
    ensures Inv(Report(s, id, status, events))
  {
    var s' := Report(s, id, status, events);
    var m := s.copies[id].msg.(status := status);
    if Reports(m.callback, status) {
      SameRow(s, m.uuid);
      assert Agrees(s.history.restarts, Copy(m, Delivered(Posting)), s.rows[m.uuid]);
      ChangeCopy(s, id, Copy(m, Delivered(Posting)), s.rows[m.uuid], s');
    } else {
      RemoveCopy(s, id, s');
    }
  }

  lemma KeepAtResume(s: State, id: CopyId, w: Write)
    requires Inv(s) && TxAt(s, id, Wrote(w))
    ensures Inv(OnResumed(s, id, w))
  {
    var m := s.copies[id].msg;
    assert Agrees(s.history.restarts, s.copies[id], s.rows[m.uuid]);
    match w
    case ToPending => ReplaceCopy(s, id, m.(status := Pending));
    case ToRetry(n) => ReplaceCopy(s, id, m.(retries := Tries(n)));
    case ToFailed(status) => KeepAtReport(s, id, status, None);
    case ToComplete(_) =>
      if m.deploy {
        MoveCopy(s, id, Delivered(Writing(ToAddress(s.eventArray))), OnResumed(s, id, w));
      } else {
        KeepAtReport(s, id, Complete, Some(s.eventArray));
      }
    case ToAddress(_) => MoveCopy(s, id, Delivered(Writing(ToProject(s.eventArray))), OnResumed(s, id, w));
    case ToProject(_) => KeepAtReport(s, id, Complete, Some(s.eventArray));
  }

  /** Purging and rebuilding establishes the invariant from any crash state, whatever copies it left behind. */
  lemma RestartEstablishes(s: State)
    ensures Inv(OnRestart(s))
  {
    var s' := OnRestart(s);
    forall u | u in s'.rows && Live(s'.rows[u].status)
      ensures exists id :: Holds(s', id, u)
    {
      assert Holds(s', Rebuilt(u), u);
    }
  }

  lemma KeepAtSubmit(s: State, m: Message)
    requires Inv(s) && m.Tx? && m.status.Initial? && m.uuid !in s.rows
    ensures Inv(DoSubmit(s, m))
  {
    var s' := DoSubmit(s, m);
    AddCopy(s, Copy(m, Submitting), NewRow(m), s');
  }

  lemma KeepAtHealthCheck(s: State)
    requires Inv(s)
    ensures Inv(DoHealthCheck(s))
  {
    AddCopy(s, Copy(Garbled, Pushing), Row(Initial, Absent, false, None, 0, None, None), DoHealthCheck(s));
  }

  lemma KeepAtRecheck(c: Config, s: State, id: CopyId, reading: real)
    requires Inv(s) && TxAt(s, id, RecheckingBalance)
    ensures Inv(OnRecheck(c, s, id, reading))
  {
    var s' := OnRecheck(c, s, id, reading);
    MoveCopy(s, id, s'.copies[id].place, s');
  }

  lemma KeepAtReceipt(s: State, id: CopyId, r: Receipt)
    requires Inv(s) && TxAt(s, id, Broadcasting)
    ensures Inv(OnReceipt(s, id, r))
  {
    var s' := OnReceipt(s, id, r);
    MoveCopy(s, id, s'.copies[id].place, s');
  }

  lemma KeepAtError(s: State, id: CopyId, gasShort: bool)
    requires Inv(s) && TxAt(s, id, Broadcasting)
    ensures Inv(OnError(s, id, gasShort))
  {
    MoveCopy(s, id, Delivered(Writing(ToFailed(FailedInitial))), OnError(s, id, gasShort));
  }

  lemma KeepAtDecoded(s: State, id: CopyId)
    requires Inv(s) && id in s.copies && s.copies[id].msg.Tx?
    ensures Inv(OnDecoded(s, id))
  {
    var s' := OnDecoded(s, id);
    if s' != s {
      MoveCopy(s, id, s'.copies[id].place, s');
    }
  }

  lemma KeepAtFlag(c: Config, s: State, id: CopyId, confirmed: bool)
    requires Inv(s) && TxAt(s, id, FetchingFlag)
    ensures Inv(Goto(s, id, Verdict(c, s.copies[id].msg.retries, confirmed)))
  {
    var point := Verdict(c, s.copies[id].msg.retries, confirmed);
    MoveCopy(s, id, Delivered(point), Goto(s, id, point));
  }

  lemma KeepAtFetch(s: State, id: CopyId, r: Receipt)
    requires Inv(s) && TxAt(s, id, FetchingReceipt)
    ensures Inv(OnFinalReceipt(s, id, r))
  {
    var s' := OnFinalReceipt(s, id, r);
    MoveCopy(s, id, s'.copies[id].place, s');
  }

  /** The steps that only move a copy on. */
  lemma KeepWhenMoved(c: Config, s: State, move: Move)
    requires Inv(s)
    requires move.FinishSubmit? || move.Accept? || move.Deliver? || move.GotWallet? || move.TimerFired?
    ensures Inv(Step(c, s, move))
  {
    var s' := Step(c, s, move);
    if s' != s {
      MoveCopy(s, move.id, s'.copies[move.id].place, s');
    }
  }

  lemma KeepAtAnswer(c: Config, s: State, id: CopyId)
    requires Inv(s)
    ensures Inv(Step(c, s, Answered(id)))
  {
    if TxAt(s, id, Posting) {
      assert Agrees(s.history.restarts, s.copies[id], s.rows[s.copies[id].msg.uuid]);
      RemoveCopy(s, id, Ack(s, id));
    }
  }

  /** Every step of every handler, broker, database and chain action, and every restart, keeps the invariant. */
  lemma StepKeepsInv(c: Config, s: State, move: Move)
    requires Inv(s)
    ensures Inv(Step(c, s, move))
  {
    match move
    case Submit(m) => if m.Tx? && m.status.Initial? && m.uuid !in s.rows { KeepAtSubmit(s, m); }
    case HealthCheck => KeepAtHealthCheck(s);
    case FinishSubmit(_) => KeepWhenMoved(c, s, move);
    case Accept(_) => KeepWhenMoved(c, s, move);
    case Deliver(_) => KeepWhenMoved(c, s, move);
    case GotWallet(_) => KeepWhenMoved(c, s, move);
    case GotBalance(id, reading) => if At(s, id, FetchingBalance) { KeepAtDispatch(c, s, id, reading); }
    case GotRecheck(id, reading) => if TxAt(s, id, RecheckingBalance) { KeepAtRecheck(c, s, id, reading); }
    case GotReceipt(id, r) => if TxAt(s, id, Broadcasting) { KeepAtReceipt(s, id, r); }
    case GotError(id, gasShort) => if TxAt(s, id, Broadcasting) { KeepAtError(s, id, gasShort); }
    case GotDecoded(id) => if id in s.copies && s.copies[id].msg.Tx? { KeepAtDecoded(s, id); }
    case TimerFired(_) => KeepWhenMoved(c, s, move);
    case GotFlag(id, confirmed) => if TxAt(s, id, FetchingFlag) { KeepAtFlag(c, s, id, confirmed); }
    case GotFinalReceipt(id, r) => if TxAt(s, id, FetchingReceipt) { KeepAtFetch(s, id, r); }
    case Applied(id) =>
      if id in s.copies && s.copies[id].msg.Tx? && s.copies[id].place.Delivered? && s.copies[id].place.point.Writing? {
        KeepAtWrite(s, id, s.copies[id].place.point.write);
      }
    case Resumed(id) =>
      if id in s.copies && s.copies[id].msg.Tx? && s.copies[id].place.Delivered? && s.copies[id].place.point.Wrote? {
        KeepAtResume(s, id, s.copies[id].place.point.write);
      }
    case Answered(id) => KeepAtAnswer(c, s, id);
    case Restart => RestartEstablishes(s);
  }

  lemma {:induction false} RunKeepsInv(c: Config, s: State, moves: seq<Move>)
    requires Inv(s)
    ensures Inv(Run(c, s, moves))
    decreases |moves|
  {
    if moves != [] {
      StepKeepsInv(c, s, moves[0]);
      RunKeepsInv(c, Step(c, s, moves[0]), moves[1..]);
    }
  }
}
