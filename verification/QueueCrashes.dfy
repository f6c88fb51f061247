/** What restarts do to the promises of the queue: exactly when a report is lost, and exactly when a transaction
    without a retry counter can complete. */
module QueueCrashes {
  import opened Transactions
  import opened QueueSpec
  import opened QueueSafety
  import opened QueueTheorems
  import opened QueueLocal
  import opened QueueHistory

  // ---- Lost reports ----

  /** A finished transaction that is to be reported and has not been. */
  predicate Unreported(s: State, u: nat) {
    && u in s.rows && !Live(s.rows[u].status) && PostsFor(s, u) == []
    && (s.rows[u].callback.Some? || s.rows[u].status.FailedInitial?)
  }

  /** Some restart in the run finds the transaction finished, to be reported, and unreported. */
  ghost predicate Lost(c: Config, s: State, moves: seq<Move>, u: nat)
    decreases |moves|
  {
    moves != [] && ((moves[0].Restart? && Unreported(s, u)) || Lost(c, Step(c, s, moves[0]), moves[1..], u))
  }

  predicate ToBeReported(v: View) {
    Finished(v) && Reports(v.row.value.callback, v.row.value.status)
  }

  /** A lost report is never made; any other is made as soon as the handler's updates are over. */
  predicate LossOk(v: View, lost: bool) {
    && (lost ==> ToBeReported(v) && v.posts == [] && (v.copy.Some? ==> !Lagging(v.copy.value.place)))
    && (!lost && ToBeReported(v) && !(v.copy.Some? && Lagging(v.copy.value.place)) ==> |v.posts| == 1)
  }

  lemma StepKeepsLoss(c: Config, u: nat, v: View, lm: LocalMove, lost: bool)
    requires ViewFits(v) && ReportsOk(v) && LossOk(v, lost) && Allowed(c, v, lm)
    requires ViewFits(LocalStep(c, u, v, lm))
    ensures LossOk(LocalStep(c, u, v, lm), lost || (lm.Reload? && ToBeReported(v) && v.posts == []))
  {
  }

  lemma {:induction false} RunKeepsLoss(c: Config, s: State, moves: seq<Move>, u: nat, lost: bool)
    requires Inv(s) && ReportsOk(ViewOf(s, u)) && LossOk(ViewOf(s, u), lost)
    ensures LossOk(ViewOf(Run(c, s, moves), u), lost || Lost(c, s, moves, u))
    decreases |moves|
  {
    if moves != [] {
      var s' := Step(c, s, moves[0]);
      var v, lm := ViewOf(s, u), LocalMoveOf(c, s, moves[0], u);
      StepKeepsInv(c, s, moves[0]);
      InvFits(s, u);
      InvFits(s', u);
      Simulates(c, s, moves[0], u);
      StepKeepsReports(c, u, v, lm);
      StepKeepsLoss(c, u, v, lm, lost);
      RunKeepsLoss(c, s', moves[1..], u, lost || (moves[0].Restart? && Unreported(s, u)));
    }
  }

  /** Over all runs, restarts included: once a finished transaction's handler is done with its updates, a report that
      is due has been made exactly once if and only if no restart found it due and unmade; and reports that are not
      due are never made. */
  lemma ReportedOnceExactly(c: Config, moves: seq<Move>, u: nat)
    ensures var s := Run(c, INITIAL_STATE, moves);
            u in s.rows && !Live(s.rows[u].status)
            && (forall id :: Holds(s, id, u) ==> !Lagging(s.copies[id].place)) ==>
              if s.rows[u].callback.Some? || s.rows[u].status.FailedInitial?
              then |PostsFor(s, u)| == 1 <==> !Lost(c, INITIAL_STATE, moves, u)
              else PostsFor(s, u) == []
  {
    var s := Run(c, INITIAL_STATE, moves);
    ReachedHistory(c, moves, u);
    RunKeepsLoss(c, INITIAL_STATE, moves, u, false);
    if id :| Holds(s, id, u) { CopyIs(s, id, u); }
  }

  lemma {:induction false} NoCrashNoLoss(c: Config, s: State, moves: seq<Move>, u: nat)
    requires CrashFree(moves)
    ensures !Lost(c, s, moves, u)
    decreases |moves|
  {
    if moves != [] {
      assert !moves[0].Restart?;
      TailIsCrashFree(moves);
      NoCrashNoLoss(c, Step(c, s, moves[0]), moves[1..], u);
    }
  }

  lemma TailIsCrashFree(moves: seq<Move>)
    requires CrashFree(moves) && moves != []
    ensures CrashFree(moves[1..])
  {
    assert forall i :: 0 <= i < |moves[1..]| ==> moves[1..][i] == moves[i + 1];
  }

  /** Without restarts, once a finished transaction's handler is done with its updates there has been exactly one
      report if the transaction has a callback (or its broadcast failed), and none otherwise. */
  lemma ReportedExactlyOnce(c: Config, moves: seq<Move>, u: nat)
    requires CrashFree(moves)
    ensures var s := Run(c, INITIAL_STATE, moves);
            u in s.rows && !Live(s.rows[u].status)
            && (forall id :: Holds(s, id, u) ==> !Lagging(s.copies[id].place)) ==>
              |PostsFor(s, u)| == if s.rows[u].callback.Some? || s.rows[u].status.FailedInitial? then 1 else 0
  {
    ReportedOnceExactly(c, moves, u);
    NoCrashNoLoss(c, INITIAL_STATE, moves, u);
  }

  /** A rebuilt message of a finished transaction is only acknowledged. */
  predicate Silent(v: View) {
    Finished(v) && (v.copy.Some? ==> !Lagging(v.copy.value.place))
  }

  lemma StepKeepsSilence(c: Config, u: nat, v: View, lm: LocalMove)
    requires ViewFits(v) && Silent(v) && Allowed(c, v, lm) && ViewFits(LocalStep(c, u, v, lm))
    ensures Silent(LocalStep(c, u, v, lm)) && LocalStep(c, u, v, lm).posts == v.posts
  {
  }

  lemma {:induction false} RunKeepsSilence(c: Config, s: State, moves: seq<Move>, u: nat)
    requires Inv(s) && Silent(ViewOf(s, u))
    ensures PostsFor(Run(c, s, moves), u) == PostsFor(s, u)
    decreases |moves|
  {
    if moves != [] {
      var s' := Step(c, s, moves[0]);
      StepKeepsInv(c, s, moves[0]);
      InvFits(s, u);
      InvFits(s', u);
      Simulates(c, s, moves[0], u);
      StepKeepsSilence(c, u, ViewOf(s, u), LocalMoveOf(c, s, moves[0], u));
      RunKeepsSilence(c, s', moves[1..], u);
    }
  }

  /** The restart that finds a transaction finished but unreported, whatever its final status, loses its report for
      good, whatever follows. */
  lemma CrashCanLoseTheReport(c: Config, crashed: State, moves: seq<Move>, u: nat)
    requires u in crashed.rows && !Live(crashed.rows[u].status)
    ensures PostsFor(Run(c, OnRestart(crashed), moves), u) == PostsFor(crashed, u)
  {
    RestartEstablishes(crashed);
    MirrorRestart(c, crashed, u);
    RunKeepsSilence(c, OnRestart(crashed), moves, u);
  }

  // ---- Transactions without a retry counter ----

  /** Writes that only a numeric retry counter or development mode leads to. */
  predicate FinishesEarly(point: Point) {
    (point.Writing? || point.Wrote?) &&
    (point.write.ToComplete? || point.write.ToAddress? || point.write.ToProject? || point.write.ToRetry?
     || point.write == ToFailed(FailedTimeout))
  }

  /** The counter is still missing, in the row and in a message that can still move it. */
  predicate RawOk(v: View)
    requires v.row.Some?
  {
    && v.row.value.retries == Absent
    && v.row.value.status in {Initial, Pending, FailedInitial, FailedReceipt, FailedPending}
    && (v.copy.Some? && v.copy.value.msg.Tx? && Live(v.row.value.status) ==> v.copy.value.msg.retries == Absent)
    && (v.copy.Some? && v.copy.value.place.Delivered? ==>
          var point := v.copy.value.place.point;
          !point.FetchingReceipt? && !point.DecodingFinal? && !FinishesEarly(point))
  }

  predicate StillRaw(v: View) {
    && (v.row.None? ==> v.submitted.None?)
    && (v.submitted == Some(Absent) ==> v.row.Some? && RawOk(v))
  }

  /** Some restart in the run finds the transaction unfinished. */
  ghost predicate Revived(c: Config, s: State, moves: seq<Move>, u: nat)
    decreases |moves|
  {
    moves != [] && ((moves[0].Restart? && LiveRow(s, u)) || Revived(c, Step(c, s, moves[0]), moves[1..], u))
  }

  lemma StepKeepsRaw(c: Config, u: nat, v: View, lm: LocalMove)
    requires !c.dev && ViewFits(v) && StillRaw(v) && Allowed(c, v, lm) && ViewFits(LocalStep(c, u, v, lm))
    requires lm.Reload? ==> !(v.row.Some? && Live(v.row.value.status))
    ensures StillRaw(LocalStep(c, u, v, lm))
  {
  }

  lemma ReloadIsRestart(c: Config, s: State, move: Move, u: nat)
    requires LocalMoveOf(c, s, move, u).Reload?
    ensures move.Restart?
  {
  }

  lemma ViewStepKeepsRaw(c: Config, u: nat, v: View, lm: LocalMove, v': View)
    requires !c.dev && ViewFits(v) && StillRaw(v) && Allowed(c, v, lm) && v' == LocalStep(c, u, v, lm) && ViewFits(v')
    requires lm.Reload? ==> !(v.row.Some? && Live(v.row.value.status))
    ensures StillRaw(v')
  {
    StepKeepsRaw(c, u, v, lm);
  }

  lemma QueueStepKeepsRaw(c: Config, s: State, move: Move, u: nat)
    requires !c.dev && Inv(s) && StillRaw(ViewOf(s, u)) && !(move.Restart? && LiveRow(s, u))
    ensures Inv(Step(c, s, move)) && StillRaw(ViewOf(Step(c, s, move), u))
  {
    StepKeepsInv(c, s, move);
    InvFits(s, u);
    InvFits(Step(c, s, move), u);
    Simulates(c, s, move, u);
    if LocalMoveOf(c, s, move, u).Reload? { ReloadIsRestart(c, s, move, u); }
    ViewStepKeepsRaw(c, u, ViewOf(s, u), LocalMoveOf(c, s, move, u), ViewOf(Step(c, s, move), u));
  }

  lemma {:induction false} RunKeepsRaw(c: Config, s: State, moves: seq<Move>, u: nat)
    requires !c.dev && Inv(s) && StillRaw(ViewOf(s, u)) && !Revived(c, s, moves, u)
    ensures StillRaw(ViewOf(Run(c, s, moves), u))
    decreases |moves|
  {
    if moves != [] {
      QueueStepKeepsRaw(c, s, moves[0], u);
      RunKeepsRaw(c, Step(c, s, moves[0]), moves[1..], u);
    }
  }

  lemma {:induction false} NoCrashNoRevival(c: Config, s: State, moves: seq<Move>, u: nat)
    requires CrashFree(moves)
    ensures !Revived(c, s, moves, u)
    decreases |moves|
  {
    if moves != [] {
      assert !moves[0].Restart?;
      TailIsCrashFree(moves);
      NoCrashNoRevival(c, Step(c, s, moves[0]), moves[1..], u);
    }
  }

  /** Outside development a transaction submitted without a retry counter ends as FAILED_PENDING, or fails before it
      is PENDING, in every run without restarts, and with restarts as long as none finds it unfinished; in particular it
      never completes. */
  lemma RawPathNeverCompletes(c: Config, moves: seq<Move>, u: nat)
    requires !c.dev && (CrashFree(moves) || !Revived(c, INITIAL_STATE, moves, u))
    ensures var s := Run(c, INITIAL_STATE, moves);
            u in s.rows && u in s.history.submitted && s.history.submitted[u] == Absent ==>
              s.rows[u].status in {Initial, Pending, FailedInitial, FailedReceipt, FailedPending}
  {
    if CrashFree(moves) { NoCrashNoRevival(c, INITIAL_STATE, moves, u); }
    RunKeepsRaw(c, INITIAL_STATE, moves, u);
  }

  /** A restart gives an unfinished row without a counter a message whose counter is zero, and with it a confirmation
      is acted upon instead of failing the transaction. */
  lemma RestartRevivesRawTransactions(c: Config, crashed: State, u: nat)
    requires LiveRow(crashed, u) && crashed.rows[u].retries == Absent && c.confirmations > 0 && !c.dev
    ensures var s := OnRestart(crashed);
            && Holds(s, Rebuilt(u), u) && s.copies[Rebuilt(u)].msg.retries == Tries(0)
            && Verdict(c, s.copies[Rebuilt(u)].msg.retries, true) == FetchingReceipt
            && Verdict(c, Absent, true) == Writing(ToFailed(FailedPending))
  {
  }
}
