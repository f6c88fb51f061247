/** What each block of the queue reader does, in terms of the row, the message and the answer it got, and what that
    means for whole runs: every status is earned by answers of the chain. */
module QueueBlocks {
  import opened Transactions
  import opened QueueSpec
  import opened QueueSafety
  import opened QueueLocal
  import opened QueueHistory

  // ---- The blocks ----

  /** The reading decides the latch, the message's status decides what happens to the delivery. A pending message waits
      once more the block time for each retry made. */
  lemma AfterFirstReading(c: Config, s: State, id: CopyId, reading: real)
    requires At(s, id, FetchingBalance)
    ensures var s' := Step(c, s, GotBalance(id, reading));
            var msg := s.copies[id].msg;
            && s'.gasOk == (reading > c.critical && (reading >= c.warning || s.gasOk))
            && s'.rows == s.rows && s'.history.posts == s.history.posts && s'.history.broadcasts == s.history.broadcasts
            && s'.history.gas == s.history.gas + [Reading(reading)]
            && (if msg.Tx? && msg.status.Initial? then
                  && s'.copies == s.copies[id := Copy(msg, Delivered(RecheckingBalance))]
                  && s'.history.waits == s.history.waits
                else if msg.Tx? && msg.status.Pending? then
                  && s'.copies == s.copies[id := Copy(msg, Delivered(Waiting))]
                  && s'.history.waits == s.history.waits +
                       [Wait(msg.uuid, if msg.retries.Tries? then c.blockTime * (msg.retries.n + 1) else 1)]
                else
                  s'.copies == s.copies - {id} && s'.history.waits == s.history.waits)
  {
  }

  /** A transaction is broadcast exactly when its second reading leaves the latch on: above the critical level, and at
      the warning level or with the latch on before. */
  lemma AfterSecondReading(c: Config, s: State, id: CopyId, reading: real)
    requires TxAt(s, id, RecheckingBalance)
    ensures var s' := Step(c, s, GotRecheck(id, reading));
            var on := reading > c.critical && (reading >= c.warning || s.gasOk);
            && s'.gasOk == on && s'.rows == s.rows && s'.history.gas == s.history.gas + [Reading(reading)]
            && s'.copies == s.copies[id := s.copies[id].(place := Delivered(if on then Broadcasting else Withheld))]
            && s'.history.broadcasts == s.history.broadcasts +
                 (if on then [Broadcast(s.copies[id].msg.uuid, reading)] else [])
  {
  }

  /** A successful first receipt makes the transaction PENDING, an unsuccessful one FAILED_RECEIPT; logs are decoded
      first. */
  lemma AfterReceipt(c: Config, s: State, id: CopyId, r: Receipt)
    requires TxAt(s, id, Broadcasting)
    ensures var s' := Step(c, s, GotReceipt(id, r));
            && s'.rows == s.rows && s'.gasOk == s.gasOk
            && s'.copies == s.copies[id := s.copies[id].(place := Delivered(
                 if r.hasLogs then DecodingFirst(r)
                 else if r.ok then Writing(ToPending)
                 else Writing(ToFailed(FailedReceipt))))]
            && s'.eventArray == if r.hasLogs then s.eventArray else NoLogs
  {
  }

  lemma AfterDecoding(c: Config, s: State, id: CopyId, r: Receipt)
    requires TxAt(s, id, DecodingFirst(r))
    ensures var s' := Step(c, s, GotDecoded(id));
            && s'.rows == s.rows && s'.eventArray == Decoded(r.decoded)
            && s'.copies == s.copies[id := s.copies[id].(place := Delivered(
                 if r.ok then Writing(ToPending) else Writing(ToFailed(FailedReceipt))))]
  {
  }

  /** An error makes the transaction FAILED_INITIAL, and a shortage of gas turns the latch off. */
  lemma AfterError(c: Config, s: State, id: CopyId, gasShort: bool)
    requires TxAt(s, id, Broadcasting)
    ensures var s' := Step(c, s, GotError(id, gasShort));
            && s'.rows == s.rows && s'.gasOk == (s.gasOk && !gasShort)
            && s'.copies == s.copies[id := s.copies[id].(place := Delivered(Writing(ToFailed(FailedInitial))))]
            && s'.history.gas == s.history.gas + (if gasShort then [GasError] else [])
  {
  }

  /** For every message and every answer of the chain: a confirmed transaction completes in development or below the
      retry limit; an unconfirmed one below the limit is retried with the next counter; at the limit it times out; and
      without a counter it fails as pending. */
  lemma AfterFlag(c: Config, s: State, id: CopyId, confirmed: bool)
    requires TxAt(s, id, FetchingFlag)
    ensures var retries := s.copies[id].msg.retries;
            var place := Step(c, s, GotFlag(id, confirmed)).copies[id].place;
            && (place == Delivered(FetchingReceipt)
                <==> confirmed && (c.dev || (retries.Tries? && retries.n < c.confirmations)))
            && (forall n :: place == Delivered(Writing(ToRetry(n)))
                  <==> !confirmed && retries.Tries? && retries.n < c.confirmations && n == retries.n + 1)
            && (place == Delivered(Writing(ToFailed(FailedTimeout)))
                <==> retries.Tries? && retries.n >= c.confirmations && !(confirmed && c.dev))
            && (place == Delivered(Writing(ToFailed(FailedPending))) <==> retries.Absent? && !(confirmed && c.dev))
    ensures var s' := Step(c, s, GotFlag(id, confirmed));
            s'.copies.Keys == s.copies.Keys && s'.rows == s.rows
            && forall other :: other in s.copies && other != id ==> s'.copies[other] == s.copies[other]
  {
  }

  /** The update of a handler changes only its own transaction's row, and only the part it is about. */
  lemma AfterWrite(c: Config, s: State, id: CopyId, w: Write)
    requires TxAt(s, id, Writing(w)) && s.copies[id].msg.uuid in s.rows
    ensures var m := s.copies[id].msg;
            var row := s.rows[m.uuid];
            var s' := Step(c, s, Applied(id));
            && s'.rows == s.rows[m.uuid := s'.rows[m.uuid]]
            && (w.ToPending? ==> s'.rows[m.uuid] == row.(status := Pending))
            && (w.ToRetry? ==> s'.rows[m.uuid] == row.(retries := Tries(w.tries)))
            && (w.ToFailed? ==> s'.rows[m.uuid] == row.(status := w.status))
            && (w.ToComplete? ==> s'.rows[m.uuid] == row.(status := Complete, events := Some(w.events)))
            && (w.ToAddress? ==> s'.rows[m.uuid] == row.(address := Some(w.address)))
            && (w.ToProject? ==> s'.rows[m.uuid] == row)
            && s'.projects == if w.ToProject? then s.projects[m.project := w.address] else s.projects
  {
  }

  /** The routine pushes one message for each row in these six statuses and for no other, with the row's own values and
      a missing counter read as zero; the process starts with the latch on. */
  lemma AfterRestart(c: Config, s: State, u: nat)
    ensures var s' := Step(c, s, Restart);
            && s'.rows == s.rows && s'.gasOk
            && s'.copies.Keys == (set v | v in s.rows && Rebuilt(v) in s'.copies :: Rebuilt(v))
            && (Rebuilt(u) in s'.copies
                <==> u in s.rows && s.rows[u].status in {Initial, Pending, FailedGas, FailedInitial, FailedReceipt,
                                                         FailedPending})
            && (Rebuilt(u) in s'.copies ==>
                  var row := s.rows[u];
                  s'.copies[Rebuilt(u)] == Copy(Tx(u, row.status, if row.retries.Tries? then row.retries else Tries(0),
                                                   row.deploy, row.callback, row.project), Pushing))
  {
  }

  // ---- Answers of the chain ----

  datatype News = Accepted | Reverted | Rejected | Confirmed

  /** What the chain tells the handler that holds transaction `u`. */
  function NewsOf(s: State, move: Move, u: nat): set<News> {
    if Subject(s, move) != Some(u) then {}
    else if move.GotReceipt? && TxAt(s, move.id, Broadcasting) then {if move.receipt.ok then Accepted else Reverted}
    else if move.GotError? && TxAt(s, move.id, Broadcasting) then {Rejected}
    else if move.GotFlag? && TxAt(s, move.id, FetchingFlag) && move.confirmed then {Confirmed}
    else {}
  }

  /** Everything the chain has told about a transaction over a run. */
  function Heard(c: Config, s: State, moves: seq<Move>, u: nat): set<News>
    decreases |moves|
  {
    if moves == [] then {} else NewsOf(s, moves[0], u) + Heard(c, Step(c, s, moves[0]), moves[1..], u)
  }

  /** The news a handler's position rests on. */
  function Needed(place: Place): set<News> {
    if !place.Delivered? then {}
    else
      match place.point
      case DecodingFirst(r) => {if r.ok then Accepted else Reverted}
      case FetchingReceipt => {Confirmed}
      case DecodingFinal(_) => {Confirmed}
      case Writing(w) => NeededToWrite(w)
      case Wrote(w) => NeededToWrite(w)
      case _ => {}
  }

  function NeededToWrite(w: Write): set<News> {
    match w
    case ToPending => {Accepted}
    case ToFailed(status) =>
      if status.FailedReceipt? then {Reverted} else if status.FailedInitial? then {Rejected} else {}
    case ToRetry(_) => {}
    case _ => {Confirmed}
  }

  /** The news a final or pending status rests on. */
  function NeededFor(status: TxStatus): set<News> {
    match status
    case Initial => {}
    case Pending => {Accepted}
    case Complete => {Accepted, Confirmed}
    case FailedTimeout => {Accepted}
    case FailedPending => {Accepted}
    case FailedReceipt => {Reverted}
    case FailedInitial => {Rejected}
    case FailedGas => {}
  }

  predicate Earned(v: View, heard: set<News>) {
    && (v.row.Some? ==> NeededFor(v.row.value.status) <= heard)
    && (v.copy.Some? ==> Needed(v.copy.value.place) <= heard)
  }

  lemma ReceiptIsNews(c: Config, s: State, id: CopyId, r: Receipt)
    requires TxAt(s, id, Broadcasting)
    ensures var move := GotReceipt(id, r);
            var s' := Step(c, s, move);
            id in s'.copies && Needed(s'.copies[id].place) <= NewsOf(s, move, s.copies[id].msg.uuid)
  {
    AfterReceipt(c, s, id, r);
  }

  lemma ErrorIsNews(c: Config, s: State, id: CopyId, gasShort: bool)
    requires TxAt(s, id, Broadcasting)
    ensures var move := GotError(id, gasShort);
            var s' := Step(c, s, move);
            id in s'.copies && Needed(s'.copies[id].place) <= NewsOf(s, move, s.copies[id].msg.uuid)
  {
    AfterError(c, s, id, gasShort);
  }

  lemma FlagIsNews(c: Config, s: State, id: CopyId, confirmed: bool)
    requires TxAt(s, id, FetchingFlag)
    ensures var move := GotFlag(id, confirmed);
            var s' := Step(c, s, move);
            id in s'.copies && Needed(s'.copies[id].place) <= NewsOf(s, move, s.copies[id].msg.uuid)
  {
  }

  lemma DecodingNeedsSame(c: Config, s: State, id: CopyId)
    requires id in s.copies && s.copies[id].msg.Tx?
    ensures var s' := OnDecoded(s, id);
            id in s'.copies && Needed(s'.copies[id].place) <= Needed(s.copies[id].place)
  {
  }

  lemma MovingNeedsNothing(c: Config, s: State, move: Move)
    requires move.FinishSubmit? || move.Accept? || move.Deliver? || move.GotWallet? || move.TimerFired?
    requires move.id in s.copies && Step(c, s, move) != s
    ensures var s' := Step(c, s, move);
            move.id in s'.copies && Needed(s'.copies[move.id].place) == {}
  {
  }

  /** Only news of the right kind leads to a position that needs it. */
  lemma ShiftNeedsNews(c: Config, s: State, move: Move, u: nat)
    requires Inv(s) && Shifting(move) && Step(c, s, move) != s && Subject(s, move) == Some(u)
    ensures var id := Mover(move).value;
            var s' := Step(c, s, move);
            id in s'.copies && Needed(s'.copies[id].place) <= Needed(s.copies[id].place) + NewsOf(s, move, u)
  {
    if move.GotReceipt? {
      ReceiptIsNews(c, s, move.id, move.receipt);
    } else if move.GotError? {
      ErrorIsNews(c, s, move.id, move.gasShort);
    } else if move.GotFlag? {
      FlagIsNews(c, s, move.id, move.confirmed);
    } else if move.GotDecoded? {
      DecodingNeedsSame(c, s, move.id);
    } else {
      MovingNeedsNothing(c, s, move);
    }
  }

  lemma ShiftsAreShifting(c: Config, s: State, move: Move, u: nat)
    requires Inv(s) && LocalMoveOf(c, s, move, u).Shift? && Shifting(move)
    ensures Step(c, s, move) != s && Subject(s, move) == Some(u)
    ensures var id := Mover(move).value;
            id in Step(c, s, move).copies
            && LocalMoveOf(c, s, move, u) == Shift(Step(c, s, move).copies[id].place)
  {
  }

  /** Steps of the automaton that are not shifts by the chain or the broker. */
  lemma OtherShifts(c: Config, s: State, move: Move, u: nat)
    requires Inv(s) && LocalMoveOf(c, s, move, u).Shift? && !Shifting(move)
    ensures var place := LocalMoveOf(c, s, move, u).place;
            && Subject(s, move) == Some(u) && Mover(move).Some? && Mover(move).value in s.copies
            && Needed(place) <= Needed(s.copies[Mover(move).value].place)
  {
  }

  lemma LocalStepEarned(c: Config, u: nat, v: View, lm: LocalMove, heard: set<News>)
    requires ViewFits(v) && Earned(v, heard) && Allowed(c, v, lm) && !lm.Shift? && ViewFits(LocalStep(c, u, v, lm))
    ensures Earned(LocalStep(c, u, v, lm), heard)
  {
  }

  lemma ShiftEarned(c: Config, u: nat, v: View, place: Place, heard: set<News>, heard': set<News>)
    requires Earned(v, heard) && Allowed(c, v, Shift(place)) && heard <= heard' && Needed(place) <= heard'
    ensures Earned(LocalStep(c, u, v, Shift(place)), heard')
  {
  }

  lemma StepEarned(c: Config, s: State, move: Move, u: nat, heard: set<News>)
    requires Inv(s) && Earned(ViewOf(s, u), heard)
    ensures Inv(Step(c, s, move)) && Earned(ViewOf(Step(c, s, move), u), heard + NewsOf(s, move, u))
  {
    var lm := LocalMoveOf(c, s, move, u);
    var heard' := heard + NewsOf(s, move, u);
    StepKeepsInv(c, s, move);
    InvFits(s, u);
    InvFits(Step(c, s, move), u);
    Simulates(c, s, move, u);
    if lm.Shift? {
      if Shifting(move) {
        ShiftsAreShifting(c, s, move, u);
        ShiftNeedsNews(c, s, move, u);
      } else {
        OtherShifts(c, s, move, u);
      }
      CopyIs(s, Mover(move).value, u);
      ShiftEarned(c, u, ViewOf(s, u), lm.place, heard, heard');
    } else {
      LocalStepEarned(c, u, ViewOf(s, u), lm, heard);
    }
  }

  lemma {:induction false} RunEarned(c: Config, s: State, moves: seq<Move>, u: nat, heard: set<News>)
    requires Inv(s) && Earned(ViewOf(s, u), heard)
    ensures Earned(ViewOf(Run(c, s, moves), u), heard + Heard(c, s, moves, u))
    decreases |moves|
  {
    if moves == [] {
      assert heard + {} == heard;
    } else {
      var now, later := NewsOf(s, moves[0], u), Heard(c, Step(c, s, moves[0]), moves[1..], u);
      StepEarned(c, s, moves[0], u, heard);
      RunEarned(c, Step(c, s, moves[0]), moves[1..], u, heard + now);
      assert (heard + now) + later == heard + (now + later);
    }
  }

  /** In every run, restarts included, a row's status is earned by what the chain told the handlers of that transaction:
      PENDING by a successful receipt, FAILED_RECEIPT by an unsuccessful one, FAILED_INITIAL by an error, and COMPLETE
      by a successful receipt and a confirmation. */
  lemma StatusesAreEarned(c: Config, moves: seq<Move>, u: nat)
    ensures var s := Run(c, INITIAL_STATE, moves);
            var heard := Heard(c, INITIAL_STATE, moves, u);
            u in s.rows ==>
              && (s.rows[u].status in {Pending, Complete, FailedTimeout, FailedPending} ==> Accepted in heard)
              && (s.rows[u].status == Complete ==> Confirmed in heard)
              && (s.rows[u].status == FailedReceipt ==> Reverted in heard)
              && (s.rows[u].status == FailedInitial ==> Rejected in heard)
  {
    ReachedEarned(c, moves, u);
  }

  lemma ReachedEarned(c: Config, moves: seq<Move>, u: nat)
    ensures var s := Run(c, INITIAL_STATE, moves);
            u in s.rows ==> NeededFor(s.rows[u].status) <= Heard(c, INITIAL_STATE, moves, u)
  {
    var s, heard := Run(c, INITIAL_STATE, moves), Heard(c, INITIAL_STATE, moves, u);
    RunEarned(c, INITIAL_STATE, moves, u, {});
    assert {} + heard == heard;
    assert u in s.rows ==> ViewOf(s, u).row == Some(s.rows[u]);
  }
}
