/** Whose events a transaction reports: exactly those of the receipt that was last assigned to the shared variable. */
module QueueEvents {
  import opened Transactions
  import opened QueueSpec
  import opened QueueSafety
  import opened QueueLocal
  import opened QueueHistory
  import opened QueueShared

  /** A handler's assignment to the shared variable: for which transaction, and from which receipt. */
  datatype Assignment = Assignment(uuid: nat, receipt: Receipt)

  /** The assignment a move makes in `s`, if any. */
  function AssignmentOf(s: State, move: Move): Option<Assignment> {
    if move.GotReceipt? && TxAt(s, move.id, Broadcasting) && !move.receipt.hasLogs then
      Some(Assignment(s.copies[move.id].msg.uuid, move.receipt))
    else if move.GotFinalReceipt? && TxAt(s, move.id, FetchingReceipt) && !move.receipt.hasLogs then
      Some(Assignment(s.copies[move.id].msg.uuid, move.receipt))
    else if move.GotDecoded? && move.id in s.copies && s.copies[move.id].msg.Tx?
            && DecodesAt(s.copies[move.id].place) then
      Some(Assignment(s.copies[move.id].msg.uuid, s.copies[move.id].place.point.receipt))
    else None
  }

  predicate DecodesAt(place: Place) {
    place.Delivered? && (place.point.DecodingFirst? || place.point.DecodingFinal?)
  }

  function Then(s: State, move: Move, last: Option<Assignment>): Option<Assignment> {
    if move.Restart? then None
    else if AssignmentOf(s, move).Some? then AssignmentOf(s, move)
    else last
  }

  /** The last assignment of a run since its last restart. */
  function LastAssignment(c: Config, s: State, moves: seq<Move>, last: Option<Assignment>): Option<Assignment>
    decreases |moves|
  {
    if moves == [] then last else LastAssignment(c, Step(c, s, moves[0]), moves[1..], Then(s, moves[0], last))
  }

  function EventsOf(last: Option<Assignment>): Events {
    if last.None? then NoLogs else OwnEvents(last.value.receipt)
  }

  // ---- The variable holds the last assignment ----

  /** A handler decodes only receipts with logs, and reports only after it has assigned. */
  predicate PlaceOk(place: Place, given: bool) {
    && (DecodesAt(place) ==> place.point.receipt.hasLogs)
    && (Closing(place) ==> given)
  }

  ghost predicate PlacesOk(s: State, given: bool) {
    forall id :: id in s.copies && s.copies[id].msg.Tx? ==> PlaceOk(s.copies[id].place, given)
  }

  ghost predicate Holding(s: State, last: Option<Assignment>) {
    s.eventArray == EventsOf(last) && PlacesOk(s, last.Some?)
  }

  /** Steps that assign nothing and put copies only where they may be. */
  lemma HoldingFrame(s: State, s': State, last: Option<Assignment>)
    requires Holding(s, last) && s'.eventArray == s.eventArray
    requires forall id :: id in s'.copies && s'.copies[id].msg.Tx? ==>
               PlaceOk(s'.copies[id].place, last.Some?)
               || (id in s.copies && s.copies[id] == s'.copies[id])
    ensures Holding(s', last)
  {
  }

  lemma HoldsAtArrival(c: Config, s: State, move: Move, last: Option<Assignment>)
    requires Holding(s, last)
    requires move.Submit? || move.FinishSubmit? || move.HealthCheck? || move.Accept? || move.Deliver? || move.GotWallet?
    ensures Holding(Step(c, s, move), last)
  {
    HoldingFrame(s, Step(c, s, move), last);
  }

  lemma HoldsAtBalance(c: Config, s: State, move: Move, last: Option<Assignment>)
    requires Holding(s, last) && move.GotBalance?
    ensures Holding(Step(c, s, move), last)
  {
    HoldingFrame(s, Step(c, s, move), last);
  }

  lemma HoldsAtReadings(c: Config, s: State, move: Move, last: Option<Assignment>)
    requires Holding(s, last)
    requires move.GotRecheck? || move.GotError?
    ensures Holding(Step(c, s, move), last)
  {
    HoldingFrame(s, Step(c, s, move), last);
  }

  lemma HoldsAtFlag(c: Config, s: State, move: Move, last: Option<Assignment>)
    requires Holding(s, last) && move.GotFlag?
    ensures Holding(Step(c, s, move), last)
  {
    HoldingFrame(s, Step(c, s, move), last);
  }

  lemma HoldsWhilePending(c: Config, s: State, move: Move, last: Option<Assignment>)
    requires Holding(s, last)
    requires move.TimerFired? || move.Answered?
    ensures Holding(Step(c, s, move), last)
  {
    HoldingFrame(s, Step(c, s, move), last);
  }

  lemma HoldsAtWrite(s: State, id: CopyId, w: Write, last: Option<Assignment>)
    requires Holding(s, last) && TxAt(s, id, Writing(w))
    ensures Holding(OnApplied(s, id, w), last)
  {
    HoldingFrame(s, OnApplied(s, id, w), last);
  }

  lemma HoldsAtResume(s: State, id: CopyId, w: Write, last: Option<Assignment>)
    requires Holding(s, last) && TxAt(s, id, Wrote(w))
    ensures Holding(OnResumed(s, id, w), last)
  {
    HoldingFrame(s, OnResumed(s, id, w), last);
  }

  lemma HoldsAtUpdates(c: Config, s: State, move: Move, last: Option<Assignment>)
    requires Holding(s, last)
    requires move.Applied? || move.Resumed?
    ensures Holding(Step(c, s, move), last)
  {
    if Step(c, s, move) == s {
    } else if move.Applied? {
      HoldsAtWrite(s, move.id, s.copies[move.id].place.point.write, last);
    } else {
      HoldsAtResume(s, move.id, s.copies[move.id].place.point.write, last);
    }
  }

  lemma HoldsAtReceipt(s: State, id: CopyId, r: Receipt, last: Option<Assignment>)
    requires Holding(s, last) && TxAt(s, id, Broadcasting)
    ensures Holding(OnReceipt(s, id, r), Then(s, GotReceipt(id, r), last))
  {
  }

  lemma HoldsAtFinalReceipt(s: State, id: CopyId, r: Receipt, last: Option<Assignment>)
    requires Holding(s, last) && TxAt(s, id, FetchingReceipt)
    ensures Holding(OnFinalReceipt(s, id, r), Then(s, GotFinalReceipt(id, r), last))
  {
  }

  lemma HoldsAtDecoded(s: State, id: CopyId, last: Option<Assignment>)
    requires Holding(s, last) && id in s.copies && s.copies[id].msg.Tx?
    ensures Holding(OnDecoded(s, id), Then(s, GotDecoded(id), last))
  {
  }

  lemma HoldsAtAssignments(c: Config, s: State, move: Move, last: Option<Assignment>)
    requires Holding(s, last)
    requires move.GotReceipt? || move.GotFinalReceipt? || move.GotDecoded?
    ensures Holding(Step(c, s, move), Then(s, move, last))
  {
    if move.GotReceipt? {
      if TxAt(s, move.id, Broadcasting) { HoldsAtReceipt(s, move.id, move.receipt, last); }
    } else if move.GotFinalReceipt? {
      if TxAt(s, move.id, FetchingReceipt) { HoldsAtFinalReceipt(s, move.id, move.receipt, last); }
    } else if move.id in s.copies && s.copies[move.id].msg.Tx? {
      HoldsAtDecoded(s, move.id, last);
    }
  }

  lemma StepKeepsHolding(c: Config, s: State, move: Move, last: Option<Assignment>)
    requires Inv(s) && Holding(s, last)
    ensures Holding(Step(c, s, move), Then(s, move, last))
  {
    if move.Restart? {
    } else if move.GotReceipt? || move.GotFinalReceipt? || move.GotDecoded? {
      HoldsAtAssignments(c, s, move, last);
    } else if move.GotBalance? {
      HoldsAtBalance(c, s, move, last);
    } else if move.GotRecheck? || move.GotError? {
      HoldsAtReadings(c, s, move, last);
    } else if move.GotFlag? {
      HoldsAtFlag(c, s, move, last);
    } else if move.TimerFired? || move.Answered? {
      HoldsWhilePending(c, s, move, last);
    } else if move.Applied? || move.Resumed? {
      HoldsAtUpdates(c, s, move, last);
    } else {
      HoldsAtArrival(c, s, move, last);
    }
  }

  /** After any run the shared variable holds the events of the last receipt any handler assigned since the last
      restart. */
  lemma {:induction false} RunKeepsHolding(c: Config, s: State, moves: seq<Move>, last: Option<Assignment>)
    requires Inv(s) && Holding(s, last)
    ensures Holding(Run(c, s, moves), LastAssignment(c, s, moves, last))
    decreases |moves|
  {
    if moves != [] {
      StepKeepsInv(c, s, moves[0]);
      StepKeepsHolding(c, s, moves[0], last);
      RunKeepsHolding(c, Step(c, s, moves[0]), moves[1..], Then(s, moves[0], last));
    }
  }

  // ---- What is handed on ----

  /** The events a handler hands on after a completing update: into the address it writes next, or into its report. */
  function HandedOn(s: State, s': State, id: CopyId): Option<Events> {
    if id in s'.copies && s'.copies[id].place.Delivered? && s'.copies[id].place.point.Writing?
       && (s'.copies[id].place.point.write.ToAddress? || s'.copies[id].place.point.write.ToProject?)
    then Some(s'.copies[id].place.point.write.address)
    else if |s'.history.posts| == |s.history.posts| + 1 then s'.history.posts[|s.history.posts|].events
    else None
  }

  lemma HandsOnShared(s: State, id: CopyId, w: Write)
    requires TxAt(s, id, Wrote(w)) && Closing(s.copies[id].place)
    ensures var s' := OnResumed(s, id, w);
            HandedOn(s, s', id) ==
              if w.ToAddress? || (w.ToComplete? && s.copies[id].msg.deploy) || s.copies[id].msg.callback.Some?
              then Some(s.eventArray) else None
  {
  }

  lemma ClosingHasFetched(c: Config, moves: seq<Move>, id: CopyId, w: Write)
    requires var s := Run(c, INITIAL_STATE, moves);
             TxAt(s, id, Wrote(w)) && Closing(s.copies[id].place)
    ensures var s := Run(c, INITIAL_STATE, moves);
            s.copies[id].msg.uuid in s.history.fetched
  {
    var s := Run(c, INITIAL_STATE, moves);
    ReachedHistory(c, moves, s.copies[id].msg.uuid);
    CopyIs(s, id, s.copies[id].msg.uuid);
  }

  lemma ReachedHolding(c: Config, moves: seq<Move>)
    ensures Holding(Run(c, INITIAL_STATE, moves), LastAssignment(c, INITIAL_STATE, moves, None))
  {
    RunKeepsHolding(c, INITIAL_STATE, moves, None);
  }

  lemma HeldAtClosing(s: State, id: CopyId, w: Write, last: Option<Assignment>)
    requires Holding(s, last) && TxAt(s, id, Wrote(w)) && Closing(s.copies[id].place)
    ensures last.Some? && s.eventArray == OwnEvents(last.value.receipt)
  {
    assert PlaceOk(s.copies[id].place, last.Some?);
  }

  /** In every run, what a completing handler hands on, to the address of a deployed project as to the callback, is
      what the last assignment since the last restart left in the shared variable. It is the transaction's own if and
      only if the receipt last assigned, by whichever handler, yields the same events as its own. */
  lemma HandedOnEventsExactly(c: Config, moves: seq<Move>, id: CopyId, w: Write)
    requires var s := Run(c, INITIAL_STATE, moves);
             TxAt(s, id, Wrote(w)) && Closing(s.copies[id].place)
    ensures var s := Run(c, INITIAL_STATE, moves);
            var m := s.copies[id].msg;
            var last := LastAssignment(c, INITIAL_STATE, moves, None);
            var given := HandedOn(s, Step(c, s, Resumed(id)), id);
            && last.Some? && m.uuid in s.history.fetched
            && (given.Some? <==> w.ToAddress? || (w.ToComplete? && m.deploy) || m.callback.Some?)
            && (given.Some? ==>
                  && given.value == OwnEvents(last.value.receipt)
                  && (given.value == OwnEvents(s.history.fetched[m.uuid])
                      <==> OwnEvents(last.value.receipt) == OwnEvents(s.history.fetched[m.uuid])))
  {
    var s := Run(c, INITIAL_STATE, moves);
    ReachedHolding(c, moves);
    ClosingHasFetched(c, moves, id, w);
    HeldAtClosing(s, id, w, LastAssignment(c, INITIAL_STATE, moves, None));
    HandsOnShared(s, id, w);
    assert Step(c, s, Resumed(id)) == OnResumed(s, id, w);
  }
}
