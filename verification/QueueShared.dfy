/** The variables all handlers share: the decoded events and the gas latch. */
module QueueShared {
  import opened Transactions
  import opened QueueSpec
  import opened QueueSafety
  import opened QueueLocal
  import opened QueueHistory

  // ---- The shared events ----

  /** From assigning the decoded events of the final receipt to reporting them. */
  predicate Closing(place: Place) {
    place.Delivered? && (place.point.Writing? || place.point.Wrote?) &&
    (place.point.write.ToComplete? || place.point.write.ToAddress? || place.point.write.ToProject?)
  }

  function OwnOf(s: State, u: nat): Events {
    if u in s.history.fetched then OwnEvents(s.history.fetched[u]) else NoLogs
  }

  /** While the last assignment is this handler's, the shared value and every address it copied are its own. */
  predicate HoldsOwn(s: State, id: CopyId)
    requires id in s.copies && s.copies[id].msg.Tx?
  {
    var u := s.copies[id].msg.uuid;
    var place := s.copies[id].place;
    Closing(place) ==>
      && s.eventArray == OwnOf(s, u)
      && (place.point.write.ToComplete? ==> place.point.write.events == OwnOf(s, u))
      && (!place.point.write.ToComplete? ==> place.point.write.address == OwnOf(s, u))
      && (place.point.write.ToProject? || place.point == Wrote(ToAddress(OwnOf(s, u))) ==>
            u in s.rows && s.rows[u].address == Some(OwnOf(s, u)))
  }

  ghost predicate Decoding(s: State) {
    forall id :: id in s.copies && s.copies[id].msg.Tx? && s.copies[id].place.Delivered?
                 && s.copies[id].place.point.DecodingFinal? ==>
      OwnOf(s, s.copies[id].msg.uuid) == Decoded(s.copies[id].place.point.receipt.decoded)
  }

  ghost predicate SharedInv(s: State) {
    && Decoding(s)
    && (forall id :: s.history.writer == Some(id) && id in s.copies && s.copies[id].msg.Tx? ==> HoldsOwn(s, id))
  }

  /** A copy that has nothing to do with the decoded final events. */
  predicate Plain(copy: Copy) {
    copy.msg.Tx? ==> !Closing(copy.place) && !(copy.place.Delivered? && copy.place.point.DecodingFinal?)
  }

  /** Steps that only create, move or drop plain copies keep the invariant, whoever they let assign. */
  lemma SharedFrame(s: State, s': State)
    requires SharedInv(s)
    requires s'.history.fetched == s.history.fetched
    requires forall u :: u in s.rows ==> u in s'.rows && s'.rows[u] == s.rows[u]
    requires forall id :: id in s'.copies ==> Plain(s'.copies[id]) || (id in s.copies && s.copies[id] == s'.copies[id])
    requires (s'.history.writer == s.history.writer && s'.eventArray == s.eventArray)
             || s'.history.writer.None?
             || (s'.history.writer.value in s'.copies ==> Plain(s'.copies[s'.history.writer.value]))
    ensures SharedInv(s')
  {
  }

  lemma SharedAtArrival(c: Config, s: State, move: Move)
    requires Inv(s) && SharedInv(s)
    requires move.Submit? || move.HealthCheck?
    ensures SharedInv(Step(c, s, move))
  {
    SharedFrame(s, Step(c, s, move));
  }

  lemma SharedBeforeDispatch(c: Config, s: State, move: Move)
    requires Inv(s) && SharedInv(s)
    requires move.FinishSubmit? || move.Accept? || move.Deliver? || move.GotWallet?
    ensures SharedInv(Step(c, s, move))
  {
    SharedFrame(s, Step(c, s, move));
  }

  lemma SharedAtBalance(c: Config, s: State, id: CopyId, reading: real)
    requires Inv(s) && SharedInv(s) && At(s, id, FetchingBalance)
    ensures SharedInv(OnBalance(c, s, id, reading))
  {
    SharedFrame(s, OnBalance(c, s, id, reading));
  }

  lemma SharedAtRecheck(c: Config, s: State, id: CopyId, reading: real)
    requires Inv(s) && SharedInv(s) && TxAt(s, id, RecheckingBalance)
    ensures SharedInv(OnRecheck(c, s, id, reading))
  {
    SharedFrame(s, OnRecheck(c, s, id, reading));
  }

  lemma SharedAtReceipt(s: State, id: CopyId, r: Receipt)
    requires Inv(s) && SharedInv(s) && TxAt(s, id, Broadcasting)
    ensures SharedInv(OnReceipt(s, id, r))
  {
    SharedFrame(s, OnReceipt(s, id, r));
  }

  lemma SharedAtError(s: State, id: CopyId, gasShort: bool)
    requires Inv(s) && SharedInv(s) && TxAt(s, id, Broadcasting)
    ensures SharedInv(OnError(s, id, gasShort))
  {
    SharedFrame(s, OnError(s, id, gasShort));
  }

  lemma SharedAtMove(s: State, id: CopyId, point: Point)
    requires Inv(s) && SharedInv(s) && id in s.copies && Plain(s.copies[id].(place := Delivered(point)))
    ensures SharedInv(Goto(s, id, point))
  {
    SharedFrame(s, Goto(s, id, point));
  }

  lemma SharedAtDecode(c: Config, s: State, id: CopyId)
    requires Inv(s) && SharedInv(s)
    ensures SharedInv(Step(c, s, GotDecoded(id)))
  {
    var s' := Step(c, s, GotDecoded(id));
    if s' != s && s.copies[id].place.point.DecodingFirst? { SharedFrame(s, s'); }
  }

  lemma SharedAtFetch(c: Config, s: State, id: CopyId, r: Receipt)
    requires Inv(s) && SharedInv(s) && TxAt(s, id, FetchingReceipt)
    ensures SharedInv(OnFinalReceipt(s, id, r))
  {
  }

  lemma SharedAtWrite(c: Config, s: State, id: CopyId, w: Write)
    requires Inv(s) && SharedInv(s) && TxAt(s, id, Writing(w))
    ensures SharedInv(OnApplied(s, id, w))
  {
  }

  lemma SharedAtResume(c: Config, s: State, id: CopyId, w: Write)
    requires Inv(s) && SharedInv(s) && TxAt(s, id, Wrote(w))
    ensures SharedInv(OnResumed(s, id, w))
  {
    if !(w.ToComplete? && s.copies[id].msg.deploy) && !w.ToAddress? { SharedFrame(s, OnResumed(s, id, w)); }
  }

  lemma SharedAtChainNews(c: Config, s: State, move: Move)
    requires Inv(s) && SharedInv(s)
    requires move.GotReceipt? || move.GotError? || move.TimerFired? || move.GotFlag? || move.GotFinalReceipt?
    ensures SharedInv(Step(c, s, move))
  {
    if Step(c, s, move) == s {
    } else if move.GotReceipt? {
      SharedAtReceipt(s, move.id, move.receipt);
    } else if move.GotError? {
      SharedAtError(s, move.id, move.gasShort);
    } else if move.TimerFired? {
      SharedAtMove(s, move.id, FetchingFlag);
    } else if move.GotFlag? {
      SharedAtMove(s, move.id, Verdict(c, s.copies[move.id].msg.retries, move.confirmed));
    } else {
      SharedAtFetch(c, s, move.id, move.receipt);
    }
  }

  lemma SharedAtBlocks(c: Config, s: State, move: Move)
    requires Inv(s) && SharedInv(s)
    requires move.GotBalance? || move.GotRecheck? || move.Answered? || move.Applied? || move.Resumed?
    ensures SharedInv(Step(c, s, move))
  {
    if Step(c, s, move) == s {
    } else if move.GotBalance? {
      SharedAtBalance(c, s, move.id, move.reading);
    } else if move.GotRecheck? {
      SharedAtRecheck(c, s, move.id, move.reading);
    } else if move.Answered? {
      SharedFrame(s, Ack(s, move.id));
    } else if move.Applied? {
      SharedAtWrite(c, s, move.id, s.copies[move.id].place.point.write);
    } else {
      SharedAtResume(c, s, move.id, s.copies[move.id].place.point.write);
    }
  }

  lemma StepKeepsShared(c: Config, s: State, move: Move)
    requires Inv(s) && SharedInv(s)
    ensures SharedInv(Step(c, s, move))
  {
    if move.GotDecoded? {
      SharedAtDecode(c, s, move.id);
    } else if move.GotReceipt? || move.GotError? || move.TimerFired? || move.GotFlag? || move.GotFinalReceipt? {
      SharedAtChainNews(c, s, move);
    } else if move.GotBalance? || move.GotRecheck? || move.Answered? || move.Applied? || move.Resumed? {
      SharedAtBlocks(c, s, move);
    } else if move.Restart? {
      SharedFrame(s, OnRestart(s));
    } else if move.Submit? || move.HealthCheck? {
      SharedAtArrival(c, s, move);
    } else {
      SharedBeforeDispatch(c, s, move);
    }
  }

  lemma {:induction false} RunKeepsShared(c: Config, s: State, moves: seq<Move>)
    requires Inv(s) && SharedInv(s)
    ensures SharedInv(Run(c, s, moves))
    decreases |moves|
  {
    if moves != [] {
      StepKeepsInv(c, s, moves[0]);
      StepKeepsShared(c, s, moves[0]);
      RunKeepsShared(c, Step(c, s, moves[0]), moves[1..]);
    }
  }

  /** The events posted back and the addresses written are the transaction's own whenever no other handler has
      assigned the shared variable since this one did. */
  lemma PostedEventsAreOwn(c: Config, moves: seq<Move>, id: CopyId, w: Write)
    requires var s := Run(c, INITIAL_STATE, moves);
             TxAt(s, id, Wrote(w)) && Closing(s.copies[id].place) && s.history.writer == Some(id)
    ensures var s := Run(c, INITIAL_STATE, moves);
            var s' := Step(c, s, Resumed(id));
            var u := s.copies[id].msg.uuid;
            && u in s.history.fetched && u in s.rows
            && s.rows[u].events == Some(OwnOf(s, u))
            && (s'.history.posts == s.history.posts
                || (&& s'.history.posts == s.history.posts
                         + [Post(u, s.copies[id].msg.callback, Complete, Some(OwnOf(s, u)))]
                    && (w.ToProject? ==> s.rows[u].address == Some(OwnOf(s, u)))))
            && (id in s'.copies && s'.copies[id].place != Delivered(Posting) ==>
                  s'.copies[id].place in {Delivered(Writing(ToAddress(OwnOf(s, u)))),
                                          Delivered(Writing(ToProject(OwnOf(s, u))))})
  {
    var s := Run(c, INITIAL_STATE, moves);
    var u := s.copies[id].msg.uuid;
    RunKeepsShared(c, INITIAL_STATE, moves);
    ReachedHistory(c, moves, u);
    CopyIs(s, id, u);
    assert HoldsOwn(s, id);
    PostsOwn(s, id, w);
    assert Step(c, s, Resumed(id)) == OnResumed(s, id, w);
  }

  lemma PostsOwn(s: State, id: CopyId, w: Write)
    requires TxAt(s, id, Wrote(w)) && Closing(s.copies[id].place) && HoldsOwn(s, id)
    ensures var s' := OnResumed(s, id, w);
            var u := s.copies[id].msg.uuid;
            && (s'.history.posts == s.history.posts
                || s'.history.posts == s.history.posts
                     + [Post(u, s.copies[id].msg.callback, Complete, Some(OwnOf(s, u)))])
            && (id in s'.copies && s'.copies[id].place != Delivered(Posting) ==>
                  s'.copies[id].place in {Delivered(Writing(ToAddress(OwnOf(s, u)))),
                                          Delivered(Writing(ToProject(OwnOf(s, u))))})
  {
  }

  // ---- The gas latch ----

  /** The verdict of the last decisive event of a history, true if there is none. */
  function LastVerdict(c: Config, events: seq<GasEvent>): bool {
    if events == [] then true
    else
      match events[|events| - 1]
      case GasError => false
      case Reading(balance) =>
        if balance <= c.critical then false
        else if balance >= c.warning then true
        else LastVerdict(c, events[..|events| - 1])
  }

  lemma VerdictSnoc(c: Config, events: seq<GasEvent>, reading: real)
    ensures LastVerdict(c, events + [Reading(reading)]) == Latch(c, LastVerdict(c, events), reading)
    ensures !LastVerdict(c, events + [GasError])
  {
    assert (events + [Reading(reading)])[..|events|] == events;
  }

  ghost predicate GasInv(c: Config, s: State) {
    && s.gasOk == LastVerdict(c, s.history.gas)
    && forall i :: 0 <= i < |s.history.broadcasts| ==> s.history.broadcasts[i].balance > c.critical
  }

  lemma GasAtBalance(c: Config, s: State, id: CopyId, reading: real)
    requires GasInv(c, s) && id in s.copies
    ensures GasInv(c, OnBalance(c, s, id, reading))
  {
    VerdictSnoc(c, s.history.gas, reading);
  }

  lemma GasAtRecheck(c: Config, s: State, id: CopyId, reading: real)
    requires GasInv(c, s) && TxAt(s, id, RecheckingBalance)
    ensures GasInv(c, OnRecheck(c, s, id, reading))
  {
    VerdictSnoc(c, s.history.gas, reading);
  }

  lemma GasAtError(c: Config, s: State, id: CopyId, gasShort: bool)
    requires GasInv(c, s) && id in s.copies
    ensures GasInv(c, OnError(s, id, gasShort))
  {
    VerdictSnoc(c, s.history.gas, 0.0);
  }

  predicate SameGas(s: State, s': State) {
    s'.gasOk == s.gasOk && s'.history.gas == s.history.gas && s'.history.broadcasts == s.history.broadcasts
  }

  lemma GasBeforeBroadcast(c: Config, s: State, move: Move)
    requires move.Submit? || move.FinishSubmit? || move.HealthCheck? || move.Accept? || move.Deliver? || move.GotWallet?
             || move.GotReceipt? || move.GotDecoded?
    ensures SameGas(s, Step(c, s, move))
  {
  }

  lemma GasAfterBroadcast(c: Config, s: State, move: Move)
    requires move.TimerFired? || move.GotFlag? || move.GotFinalReceipt? || move.Applied? || move.Resumed?
             || move.Answered?
    ensures SameGas(s, Step(c, s, move))
  {
  }

  lemma StepKeepsGas(c: Config, s: State, move: Move)
    requires GasInv(c, s)
    ensures GasInv(c, Step(c, s, move))
  {
    if Step(c, s, move) == s {
    } else if move.GotBalance? {
      GasAtBalance(c, s, move.id, move.reading);
    } else if move.GotRecheck? {
      GasAtRecheck(c, s, move.id, move.reading);
    } else if move.GotError? {
      GasAtError(c, s, move.id, move.gasShort);
    } else if move.TimerFired? || move.GotFlag? || move.GotFinalReceipt? || move.Applied? || move.Resumed?
              || move.Answered?
    {
      GasAfterBroadcast(c, s, move);
    } else if !move.Restart? {
      GasBeforeBroadcast(c, s, move);
    }
  }

  lemma {:induction false} RunKeepsGas(c: Config, s: State, moves: seq<Move>)
    requires GasInv(c, s)
    ensures GasInv(c, Run(c, s, moves))
    decreases |moves|
  {
    if moves != [] {
      StepKeepsGas(c, s, moves[0]);
      RunKeepsGas(c, Step(c, s, moves[0]), moves[1..]);
    }
  }

  /** After any run the latch is the verdict of the last decisive reading or error since the process started, and
      no transaction was ever broadcast on a reading of its own at or below the critical level. */
  lemma GasLatchIsLastVerdict(c: Config, moves: seq<Move>)
    ensures var s := Run(c, INITIAL_STATE, moves);
            && s.gasOk == LastVerdict(c, s.history.gas)
            && forall i :: 0 <= i < |s.history.broadcasts| ==> s.history.broadcasts[i].balance > c.critical
  {
    RunKeepsGas(c, INITIAL_STATE, moves);
  }
}
