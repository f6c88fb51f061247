/** What the invariant means for whole runs: one live copy, the exact lag of a message behind its row,
    the order of statuses, and safety across restarts. */
module QueueTheorems {
  import opened Transactions
  import opened QueueSpec
  import opened QueueSafety

  // ---- Runs ----

  lemma EarlyStepsKeepCount(c: Config, s: State, move: Move)
    requires move.Submit? || move.FinishSubmit? || move.HealthCheck? || move.Accept? || move.Deliver?
             || move.GotWallet? || move.GotBalance? || move.GotRecheck? || move.GotReceipt? || move.GotError?
    ensures Step(c, s, move).history.restarts == s.history.restarts
  {
  }

  lemma LateStepsKeepCount(c: Config, s: State, move: Move)
    requires move.GotDecoded? || move.TimerFired? || move.GotFlag? || move.GotFinalReceipt? || move.Applied?
             || move.Resumed? || move.Answered?
    ensures Step(c, s, move).history.restarts == s.history.restarts
  {
  }

  lemma StepKeepsCount(c: Config, s: State, move: Move)
    requires !move.Restart?
    ensures Step(c, s, move).history.restarts == s.history.restarts
  {
    if move.GotDecoded? || move.TimerFired? || move.GotFlag? || move.GotFinalReceipt? || move.Applied?
       || move.Resumed? || move.Answered?
    {
      LateStepsKeepCount(c, s, move);
    } else {
      EarlyStepsKeepCount(c, s, move);
    }
  }

  lemma {:induction false} RestartsCount(c: Config, s: State, moves: seq<Move>)
    requires CrashFree(moves)
    ensures Run(c, s, moves).history.restarts == s.history.restarts
    decreases |moves|
  {
    if moves != [] {
      StepKeepsCount(c, s, moves[0]);
      RestartsCount(c, Step(c, s, moves[0]), moves[1..]);
    }
  }

  lemma ReachedInv(c: Config, moves: seq<Move>)
    ensures Inv(Run(c, INITIAL_STATE, moves))
    ensures CrashFree(moves) ==> Run(c, INITIAL_STATE, moves).history.restarts == 0
  {
    RunKeepsInv(c, INITIAL_STATE, moves);
    if CrashFree(moves) { RestartsCount(c, INITIAL_STATE, moves); }
  }

  // ---- One live copy ----

  /** The copies of `u`, wherever they are, that stand for an unfinished transaction. */
  ghost function LiveCopies(s: State, u: nat): set<CopyId> {
    set id | id in s.copies && Holds(s, id, u) && Live(EffectiveStatus(s.copies[id]))
  }

  ghost predicate LiveRow(s: State, u: nat) {
    u in s.rows && Live(s.rows[u].status)
  }

  lemma LiveCopiesCount(s: State, u: nat)
    requires Inv(s)
    ensures |LiveCopies(s, u)| == if LiveRow(s, u) then 1 else 0
    ensures forall id :: id in LiveCopies(s, u) ==>
              u in s.rows && EffectiveStatus(s.copies[id]) == s.rows[u].status
  {
    if LiveRow(s, u) {
      var id :| Holds(s, id, u);
      assert Agrees(s.history.restarts, s.copies[id], s.rows[u]);
      assert LiveCopies(s, u) == {id};
    } else {
      assert LiveCopies(s, u) == {};
    }
  }

  /** At every point of every run, with or without restarts, an unfinished transaction has exactly one live copy
      and every other transaction has none. In runs without restarts the copy also has the row's retry count. */
  lemma OneLiveCopy(c: Config, moves: seq<Move>, u: nat)
    ensures var s := Run(c, INITIAL_STATE, moves);
            && |LiveCopies(s, u)| == (if LiveRow(s, u) then 1 else 0)
            && forall id :: id in LiveCopies(s, u) ==>
                 && EffectiveStatus(s.copies[id]) == s.rows[u].status
                 && (CrashFree(moves) ==> EffectiveRetries(s.copies[id]) == s.rows[u].retries)
  {
    ReachedInv(c, moves);
    LiveCopiesCount(Run(c, INITIAL_STATE, moves), u);
  }

  // ---- When a message lags behind its row ----

  /** The positions between a handler's first update of the row and the point where it rewrites its message. */
  predicate Lagging(place: Place) {
    place.Delivered? &&
    (place.point.Wrote? || (place.point.Writing? && (place.point.write.ToAddress? || place.point.write.ToProject?)))
  }

  /** In runs without restarts the message itself, not only what it stands for, has the row's status and retry
      count exactly when its handler is not between an update and what follows it. */
  lemma MessageMatchesRowExactly(c: Config, moves: seq<Move>, id: CopyId)
    requires CrashFree(moves)
    ensures var s := Run(c, INITIAL_STATE, moves);
            id in s.copies && s.copies[id].msg.Tx? ==>
              var m := s.copies[id].msg;
              && m.uuid in s.rows
              && ((m.status == s.rows[m.uuid].status && m.retries == s.rows[m.uuid].retries)
                  <==> !Lagging(s.copies[id].place))
  {
    ReachedInv(c, moves);
  }

  // ---- The order of statuses ----

  /** `b` is `a` or can follow it. */
  predicate Later(a: TxStatus, b: TxStatus) {
    match a
    case Initial => !b.FailedGas?
    case Pending => b.Pending? || b.Complete? || b.FailedTimeout? || b.FailedPending?
    case _ => a == b
  }

  lemma WriteAdvancesRows(s: State, id: CopyId, w: Write, u: nat)
    requires Inv(s) && u in s.rows && TxAt(s, id, Writing(w))
    ensures u in OnApplied(s, id, w).rows && Later(s.rows[u].status, OnApplied(s, id, w).rows[u].status)
  {
    assert Agrees(s.history.restarts, s.copies[id], s.rows[s.copies[id].msg.uuid]);
  }

  /** Only submissions and updates touch rows. */
  lemma OthersKeepRows(c: Config, s: State, move: Move)
    requires !move.Submit? && !move.Applied?
    ensures Step(c, s, move).rows == s.rows
  {
  }

  lemma StepAdvancesRows(c: Config, s: State, move: Move, u: nat)
    requires Inv(s) && u in s.rows
    ensures u in Step(c, s, move).rows && Later(s.rows[u].status, Step(c, s, move).rows[u].status)
  {
    if move.Applied? {
      if move.id in s.copies && s.copies[move.id].msg.Tx? && s.copies[move.id].place.Delivered?
         && s.copies[move.id].place.point.Writing?
      {
        WriteAdvancesRows(s, move.id, s.copies[move.id].place.point.write, u);
      }
    } else if !move.Submit? {
      OthersKeepRows(c, s, move);
    }
  }

  /** Over every run, restarts included, rows are never lost and statuses only move forward; in particular a row
      that was complete or failed keeps its status for ever. */
  lemma {:induction false} RunAdvancesRows(c: Config, s: State, moves: seq<Move>, u: nat)
    requires Inv(s) && u in s.rows
    ensures u in Run(c, s, moves).rows && Later(s.rows[u].status, Run(c, s, moves).rows[u].status)
    decreases |moves|
  {
    if moves != [] {
      StepKeepsInv(c, s, moves[0]);
      StepAdvancesRows(c, s, moves[0], u);
      RunAdvancesRows(c, Step(c, s, moves[0]), moves[1..], u);
    }
  }

  /** From any crash state whatever, whose broker, deliveries and pushes may hold anything, restarting and then
      running under any schedule gives every unfinished row exactly one live copy again, leaves finished rows
      none, and never changes the status of a row that was complete or failed at the crash. */
  lemma RestartIsSafe(c: Config, crashed: State, moves: seq<Move>, u: nat)
    ensures var s := Run(c, OnRestart(crashed), moves);
            && |LiveCopies(s, u)| == (if LiveRow(s, u) then 1 else 0)
            && (u in crashed.rows ==> u in s.rows)
            && (u in crashed.rows && !Live(crashed.rows[u].status) ==> s.rows[u].status == crashed.rows[u].status)
  {
    RestartEstablishes(crashed);
    RunKeepsInv(c, OnRestart(crashed), moves);
    LiveCopiesCount(Run(c, OnRestart(crashed), moves), u);
    if u in crashed.rows {
      RunAdvancesRows(c, OnRestart(crashed), moves, u);
    }
  }

  /** The failed rows that a restart puts back on the queue are only acknowledged: delivering one changes no row,
      makes no report and leaves no copy. */
  lemma RebuiltFailuresAreOnlyAcknowledged(c: Config, s: State, id: CopyId, reading: real)
    requires Inv(s) && TxAt(s, id, FetchingBalance) && !Live(s.copies[id].msg.status)
    ensures var s' := Step(c, s, GotBalance(id, reading));
            && s'.rows == s.rows && s'.history.posts == s.history.posts
            && s'.history.broadcasts == s.history.broadcasts && s'.copies == s.copies - {id}
            && forall id' :: !Holds(s', id', s.copies[id].msg.uuid)
  {
    var u := s.copies[id].msg.uuid;
    forall id' ensures !Holds(Step(c, s, GotBalance(id, reading)), id', u) {
      assert Holds(s, id, u);
    }
  }

  // ---- Which live copies can move ----

  /** The next block or action for a copy, whatever the environment answers. */
  function NextMove(s: State, id: CopyId): Move
    requires id in s.copies
  {
    var noLogs := Receipt(true, false, []);
    match s.copies[id].place
    case Submitting => FinishSubmit(id)
    case Pushing => Accept(id)
    case Queued => Deliver(id)
    case Delivered(point) =>
      match point
      case FetchingWallet => GotWallet(id)
      case FetchingBalance => GotBalance(id, 0.0)
      case RecheckingBalance => GotRecheck(id, 0.0)
      case Withheld => HealthCheck
      case Broadcasting => GotError(id, false)
      case DecodingFirst(_) => GotDecoded(id)
      case Waiting => TimerFired(id)
      case FetchingFlag => GotFlag(id, true)
      case FetchingReceipt => GotFinalReceipt(id, noLogs)
      case DecodingFinal(_) => GotDecoded(id)
      case Writing(_) => Applied(id)
      case Wrote(_) => Resumed(id)
      case Posting => Answered(id)
  }

  /** The copy has been acknowledged or is somewhere else. */
  predicate Moved(s: State, s': State, id: CopyId)
    requires id in s.copies
  {
    id in s'.copies ==> s'.copies[id] != s.copies[id]
  }

  lemma WithheldStaysEarly(c: Config, s: State, id: CopyId, move: Move)
    requires Inv(s) && At(s, id, Withheld)
    requires move.Submit? || move.FinishSubmit? || move.HealthCheck? || move.Accept? || move.Deliver?
             || move.GotWallet? || move.GotBalance?
    ensures !Moved(s, Step(c, s, move), id)
  {
  }

  lemma WithheldStaysAtNews(c: Config, s: State, id: CopyId, move: Move)
    requires Inv(s) && At(s, id, Withheld)
    requires move.GotRecheck? || move.GotReceipt? || move.GotError? || move.GotDecoded?
    ensures !Moved(s, Step(c, s, move), id)
  {
  }

  lemma WithheldStaysLate(c: Config, s: State, id: CopyId, move: Move)
    requires Inv(s) && At(s, id, Withheld)
    requires move.TimerFired? || move.GotFlag? || move.GotFinalReceipt? || move.Answered?
    ensures !Moved(s, Step(c, s, move), id)
  {
  }

  lemma WithheldStaysAtUpdates(c: Config, s: State, id: CopyId, move: Move)
    requires Inv(s) && At(s, id, Withheld)
    requires move.Applied? || move.Resumed?
    ensures !Moved(s, Step(c, s, move), id)
  {
  }

  lemma WithheldStays(c: Config, s: State, id: CopyId, move: Move)
    requires Inv(s) && At(s, id, Withheld) && !move.Restart?
    ensures !Moved(s, Step(c, s, move), id)
  {
    if move.GotRecheck? || move.GotReceipt? || move.GotError? || move.GotDecoded? {
      WithheldStaysAtNews(c, s, id, move);
    } else if move.TimerFired? || move.GotFlag? || move.GotFinalReceipt? || move.Answered? {
      WithheldStaysLate(c, s, id, move);
    } else if move.Applied? || move.Resumed? {
      WithheldStaysAtUpdates(c, s, id, move);
    } else {
      WithheldStaysEarly(c, s, id, move);
    }
  }

  lemma OthersMove(c: Config, s: State, id: CopyId)
    requires Inv(s) && id in s.copies && s.copies[id].msg.Tx? && !At(s, id, Withheld)
    ensures !NextMove(s, id).Restart? && Moved(s, Step(c, s, NextMove(s, id)), id)
  {
  }

  /** A copy of a transaction has a next move short of a restart if and only if it is not being withheld for lack of
      gas: a withheld delivery is never looked at again, every other one always can move on. */
  lemma CanMoveExactly(c: Config, s: State, id: CopyId)
    requires Inv(s) && id in s.copies && s.copies[id].msg.Tx?
    ensures (exists move: Move :: !move.Restart? && Moved(s, Step(c, s, move), id)) <==> !At(s, id, Withheld)
  {
    if At(s, id, Withheld) {
      forall move: Move | !move.Restart?
        ensures !Moved(s, Step(c, s, move), id)
      {
        WithheldStays(c, s, id, move);
      }
    } else {
      OthersMove(c, s, id);
    }
  }

  /** However long the process runs on without a restart, a withheld delivery stays where it is. */
  lemma {:induction false} WithheldForGood(c: Config, s: State, id: CopyId, moves: seq<Move>)
    requires Inv(s) && At(s, id, Withheld) && CrashFree(moves)
    ensures id in Run(c, s, moves).copies && Run(c, s, moves).copies[id] == s.copies[id]
    decreases |moves|
  {
    if moves != [] {
      assert !moves[0].Restart?;
      StepKeepsInv(c, s, moves[0]);
      WithheldStays(c, s, id, moves[0]);
      assert CrashFree(moves[1..]) by { assert forall i :: 0 <= i < |moves[1..]| ==> moves[1..][i] == moves[i + 1]; }
      WithheldForGood(c, Step(c, s, moves[0]), id, moves[1..]);
    }
  }

  // ---- A purge that comes late ----

  /** The broker carries out a purge: it forgets whatever is queued. */
  ghost function Purged(s: State): State {
    s.(copies := map id | id in s.copies && !s.copies[id].place.Queued? :: s.copies[id])
  }

  ghost predicate QueuedLive(s: State, id: CopyId) {
    id in s.copies && s.copies[id].place.Queued? && s.copies[id].msg.Tx? && Live(s.copies[id].msg.status)
  }

  /** The restart routine does not wait for its purge. A purge carried out after the pushes keeps the invariant if and
      only if no message of an unfinished transaction is queued by then. */
  lemma LatePurgeIsSafeExactly(s: State)
    requires Inv(s)
    ensures Inv(Purged(s)) <==> forall id :: !QueuedLive(s, id)
  {
    var s' := Purged(s);
    if id :| QueuedLive(s, id) {
      var u := s.copies[id].msg.uuid;
      assert Agrees(s.history.restarts, s.copies[id], s.rows[u]);
      assert forall other :: !Holds(s', other, u);
      assert !Covered(s');
    } else {
      forall u | u in s'.rows && Live(s'.rows[u].status)
        ensures exists id :: Holds(s', id, u)
      {
        var id :| Holds(s, id, u);
        assert Agrees(s.history.restarts, s.copies[id], s.rows[u]);
        assert !QueuedLive(s, id);
        assert Holds(s', id, u);
      }
    }
  }

  /** Such a loss is reachable: a restarted queue that has taken in a rebuilt live message loses it to a late purge. */
  lemma LatePurgeCanLoseAMessage(c: Config, crashed: State, u: nat)
    requires LiveRow(crashed, u)
    ensures var s := Step(c, OnRestart(crashed), Accept(Rebuilt(u)));
            Inv(s) && LiveRow(Purged(s), u) && |LiveCopies(Purged(s), u)| == 0
  {
    var s := Step(c, OnRestart(crashed), Accept(Rebuilt(u)));
    RestartEstablishes(crashed);
    StepKeepsInv(c, OnRestart(crashed), Accept(Rebuilt(u)));
    assert Holds(s, Rebuilt(u), u) && s.copies[Rebuilt(u)].place.Queued?;
    assert forall id :: !Holds(Purged(s), id, u);
    assert LiveCopies(Purged(s), u) == {};
  }

  // ---- A reader that starts before the warm-up ----

  /** The restart routine at work on a process whose reader is already running: the queue is purged and the selected
      rows are pushed, but deliveries and other pushes stay. */
  ghost function Overlapped(s: State): State {
    s.(copies := Purged(s).copies + Rebuild(s.rows), history := s.history.(restarts := s.history.restarts + 1))
  }

  /** A copy outside the queue of a transaction whose row the routine selects. */
  ghost predicate HeldReloaded(s: State, id: CopyId) {
    id in s.copies && !s.copies[id].place.Queued? && s.copies[id].msg.Tx?
    && s.copies[id].msg.uuid in s.rows && Reloaded(s.rows[s.copies[id].msg.uuid].status)
  }

  /** Rebuilt messages of an earlier start are queued, if they are still there. */
  ghost predicate RebuiltQueued(s: State) {
    forall u: nat :: Rebuilt(u) in s.copies ==> s.copies[Rebuilt(u)].place.Queued?
  }

  lemma OverlapCopies(s: State, id: CopyId)
    requires RebuiltQueued(s)
    ensures id in Overlapped(s).copies
            <==> (id in s.copies && !s.copies[id].place.Queued?) || id in Rebuild(s.rows)
    ensures id in Overlapped(s).copies ==>
              Overlapped(s).copies[id] == if id in Rebuild(s.rows) then Rebuild(s.rows)[id] else s.copies[id]
  {
  }

  lemma OverlapDuplicates(s: State, id: CopyId)
    requires Inv(s) && RebuiltQueued(s) && HeldReloaded(s, id)
    ensures var u := s.copies[id].msg.uuid;
            id != Rebuilt(u) && Holds(Overlapped(s), id, u) && Holds(Overlapped(s), Rebuilt(u), u)
  {
    OverlapCopies(s, id);
    OverlapCopies(s, Rebuilt(s.copies[id].msg.uuid));
  }

  lemma OverlapMatches(s: State, id: CopyId)
    requires Inv(s) && RebuiltQueued(s) && id in Overlapped(s).copies && Overlapped(s).copies[id].msg.Tx?
    ensures var copy := Overlapped(s).copies[id];
            copy.msg.uuid in s.rows && Agrees(s.history.restarts + 1, copy, s.rows[copy.msg.uuid])
  {
    OverlapCopies(s, id);
    if id !in Rebuild(s.rows) {
      assert Agrees(s.history.restarts, s.copies[id], s.rows[s.copies[id].msg.uuid]);
    }
  }

  lemma OverlapIsUnique(s: State)
    requires Inv(s) && RebuiltQueued(s) && forall id :: !HeldReloaded(s, id)
    ensures Unique(Overlapped(s))
  {
    var s' := Overlapped(s);
    forall id, id' | id in s'.copies && id' in s'.copies && s'.copies[id].msg.Tx? && s'.copies[id'].msg.Tx?
                     && s'.copies[id].msg.uuid == s'.copies[id'].msg.uuid
      ensures id == id'
    {
      OverlapCopies(s, id);
      OverlapCopies(s, id');
      OverlapMatches(s, id);
      assert !HeldReloaded(s, id) && !HeldReloaded(s, id');
    }
  }

  /** Such a warm-up keeps the invariant if and only if nothing outside the queue belongs to a transaction that it
      selects: any delivery or push under way would be doubled. */
  lemma OverlapIsSafeExactly(s: State)
    requires Inv(s) && RebuiltQueued(s)
    ensures Inv(Overlapped(s)) <==> forall id :: !HeldReloaded(s, id)
  {
    var s' := Overlapped(s);
    if id :| HeldReloaded(s, id) {
      OverlapDuplicates(s, id);
      assert !Unique(s');
    } else {
      OverlapIsUnique(s);
      forall id | id in s'.copies && s'.copies[id].msg.Tx?
        ensures s'.copies[id].msg.uuid in s'.rows
        ensures Agrees(s'.history.restarts, s'.copies[id], s'.rows[s'.copies[id].msg.uuid])
      {
        OverlapMatches(s, id);
      }
      forall u | u in s'.rows && Live(s'.rows[u].status)
        ensures exists id :: Holds(s', id, u)
      {
        OverlapCopies(s, Rebuilt(u));
        assert Holds(s', Rebuilt(u), u);
      }
      forall n: nat | Pushed(n) in s'.copies
        ensures n < s'.nextPush
      {
        OverlapCopies(s, Pushed(n));
      }
    }
  }
}
