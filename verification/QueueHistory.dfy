/** What one transaction's whole history can look like: its reports, its broadcasts, its waits and its events. */
module QueueHistory {
  import opened Transactions
  import opened QueueSpec
  import opened QueueSafety
  import opened QueueTheorems
  import opened QueueLocal

  /** The queue invariant, seen by one transaction. */
  predicate ViewFits(v: View) {
    && (v.copy.Some? ==> v.copy.value.msg.Tx? && v.row.Some? && Agrees(v.restarts, v.copy.value, v.row.value))
    && (v.row.Some? && Live(v.row.value.status) ==> v.copy.Some?)
  }

  lemma InvFits(s: State, u: nat)
    requires Inv(s)
    ensures ViewFits(ViewOf(s, u))
  {
    if u in s.rows && Live(s.rows[u].status) {
      var id :| Holds(s, id, u);
      CopyIs(s, id, u);
    }
  }

  predicate Finished(v: View) {
    v.row.Some? && !Live(v.row.value.status)
  }

  // ---- Reports ----

  predicate ReportsOk(v: View) {
    && (!Finished(v) || (v.copy.Some? && Lagging(v.copy.value.place)) ==> v.posts == [])
    && (Finished(v) ==>
          && |v.posts| <= 1
          && (v.posts != [] ==>
                v.posts[0].status == v.row.value.status && v.posts[0].url == v.row.value.callback
                && (v.posts[0].events.Some? <==> v.row.value.status.Complete?)
                && Reports(v.row.value.callback, v.row.value.status)))
    && (v.restarts == 0 && Finished(v) && v.copy.Some? && !Lagging(v.copy.value.place) ==>
          v.copy.value.place == Delivered(Posting) && |v.posts| == 1)
    && (v.restarts == 0 && Finished(v) && v.copy.None? ==>
          |v.posts| == if Reports(v.row.value.callback, v.row.value.status) then 1 else 0)
  }

  lemma StepKeepsReports(c: Config, u: nat, v: View, lm: LocalMove)
    requires ViewFits(v) && ReportsOk(v) && Allowed(c, v, lm)
    requires ViewFits(LocalStep(c, u, v, lm))
    ensures ReportsOk(LocalStep(c, u, v, lm))
  {
  }

  // ---- Broadcasts ----

  /** Nothing has been sent to the chain while the message is still on its way to the second balance reading. */
  predicate BeforeBroadcast(copy: Copy)
    requires copy.msg.Tx?
  {
    copy.msg.status.Initial?
    && (Fresh(copy.place) || copy.place == Delivered(RecheckingBalance) || copy.place == Delivered(Withheld))
  }

  predicate BroadcastsOk(v: View) {
    && |v.broadcasts| <= v.restarts + 1
    && (v.row.None? ==> v.broadcasts == [])
    && (v.copy.Some? && v.copy.value.msg.Tx? && BeforeBroadcast(v.copy.value) ==> |v.broadcasts| <= v.restarts)
  }

  lemma StepKeepsBroadcasts(c: Config, u: nat, v: View, lm: LocalMove)
    requires ViewFits(v) && BroadcastsOk(v) && Allowed(c, v, lm)
    requires ViewFits(LocalStep(c, u, v, lm))
    ensures BroadcastsOk(LocalStep(c, u, v, lm))
  {
  }

  // ---- Events ----

  predicate EventsOk(v: View) {
    && (v.row.Some? && v.row.value.status.Complete? ==>
          v.fetched.Some? && v.row.value.events == Some(OwnEvents(v.fetched.value)))
    && (v.copy.Some? && v.copy.value.place.Delivered? ==>
          var point := v.copy.value.place.point;
          && (point.DecodingFinal? ==> v.fetched == Some(point.receipt) && point.receipt.hasLogs)
          && (point.Writing? && point.write.ToComplete? ==>
                v.fetched.Some? && point.write.events == OwnEvents(v.fetched.value)))
  }

  lemma StepKeepsEvents(c: Config, u: nat, v: View, lm: LocalMove)
    requires ViewFits(v) && EventsOk(v) && Allowed(c, v, lm)
    requires ViewFits(LocalStep(c, u, v, lm))
    ensures EventsOk(LocalStep(c, u, v, lm))
  {
  }

  // ---- Waits ----

  function Millis(waits: seq<Wait>): nat {
    if waits == [] then 0 else Millis(waits[..|waits| - 1]) + waits[|waits| - 1].millis
  }

  /** 1 + 2 + ... + n. */
  function Triangle(n: nat): nat {
    if n == 0 then 0 else Triangle(n - 1) + n
  }

  lemma {:induction false} TriangleClosed(n: nat)
    ensures 2 * Triangle(n) == n * (n + 1)
  {
    if n > 0 { TriangleClosed(n - 1); }
  }

  /** What retry counts from `first` up to but not including `n` may wait, and one longest wait for each restart. */
  function Allowance(c: Config, first: nat, n: nat, restarts: nat): int {
    c.blockTime * (Triangle(n) - Triangle(first)) + restarts * (c.blockTime * (c.confirmations + 1))
  }

  /** The waits so far: at most one for every retry count from `first` up to but not including `n`, and one for each
      restart. */
  predicate WaitedUpTo(c: Config, waits: seq<Wait>, first: nat, n: nat, restarts: nat) {
    first <= n && |waits| <= n - first + restarts && Millis(waits) <= Allowance(c, first, n, restarts)
  }

  lemma {:induction false} TriangleGrows(a: nat, b: nat)
    requires a <= b
    ensures Triangle(a) <= Triangle(b)
    decreases b
  {
    if a < b { TriangleGrows(a, b - 1); }
  }

  lemma AllowanceStep(c: Config, first: nat, n: nat, restarts: nat)
    ensures Allowance(c, first, n + 1, restarts) == Allowance(c, first, n, restarts) + c.blockTime * (n + 1)
  {
    var b, x, y := c.blockTime, Triangle(n) - Triangle(first), n + 1;
    assert b * x + b * y == b * (x + y);
  }

  lemma NothingWaited(c: Config, first: nat, restarts: nat)
    ensures WaitedUpTo(c, [], first, first, restarts)
  {
    var longest := c.blockTime * (c.confirmations + 1);
    assert c.blockTime * (Triangle(first) - Triangle(first)) == 0;
    assert restarts * longest >= 0;
  }

  lemma WaitOnce(c: Config, waits: seq<Wait>, first: nat, n: nat, restarts: nat, w: Wait)
    requires WaitedUpTo(c, waits, first, n, restarts) && w.millis == c.blockTime * (n + 1)
    ensures WaitedUpTo(c, waits + [w], first, n + 1, restarts)
  {
    assert (waits + [w])[..|waits|] == waits;
    AllowanceStep(c, first, n, restarts);
  }

  lemma WaitedMore(c: Config, waits: seq<Wait>, first: nat, n: nat, restarts: nat)
    requires WaitedUpTo(c, waits, first, n, restarts)
    ensures WaitedUpTo(c, waits, first, n + 1, restarts)
  {
    AllowanceStep(c, first, n, restarts);
    assert c.blockTime * (n + 1) >= 0;
  }

  /** A restart may repeat the wait for the current retry count. */
  lemma WaitedBeforeRestart(c: Config, waits: seq<Wait>, first: nat, n: nat, restarts: nat)
    requires first <= n <= c.confirmations && WaitedUpTo(c, waits, first, n + 1, restarts)
    ensures WaitedUpTo(c, waits, first, n, restarts + 1)
  {
    var longest := c.blockTime * (c.confirmations + 1);
    AllowanceStep(c, first, n, restarts);
    assert (restarts + 1) * longest == restarts * longest + longest;
    Scale(c.blockTime, n + 1, c.confirmations + 1);
  }

  lemma Scale(b: nat, x: int, y: int)
    requires x <= y
    ensures b * x <= b * y
  {
  }

  /** The timer for the current retry count has not been set yet. */
  predicate BeforeTimer(copy: Copy)
    requires copy.msg.Tx?
  {
    EffectiveStatus(copy).Pending? && (Fresh(copy.place) || Pledged(copy.place))
  }

  /** A message whose counter started at `first`, within the limit. */
  predicate CountedOk(c: Config, v: View, first: nat)
    requires v.row.Some?
  {
    && v.row.value.retries.Tries?
    && var n := v.row.value.retries.n;
    && first <= n <= c.confirmations
    && (v.row.value.status.Initial? ==> v.waits == [] && n == first)
    && WaitedUpTo(c, v.waits, first, n + 1, v.restarts)
    && !v.row.value.status.FailedPending?
    && (v.copy.Some? && v.copy.value.msg.Tx? ==>
          && (BeforeTimer(v.copy.value) ==> WaitedUpTo(c, v.waits, first, n, v.restarts))
          && (v.copy.value.place.Delivered? ==> RespectsLimit(c, v.copy.value.place.point)))
  }

  predicate RetriesOk(c: Config, v: View) {
    && (v.row.None? ==> v.waits == [])
    && (v.row.Some? ==>
          && v.submitted.Some?
          && (v.submitted.value.Tries? && v.submitted.value.n <= c.confirmations ==>
                CountedOk(c, v, v.submitted.value.n)))
  }

  /** Writes that a numeric retry counter allows. */
  predicate RespectsLimit(c: Config, point: Point) {
    (point.Writing? || point.Wrote?) ==>
      (point.write.ToRetry? ==> point.write.tries <= c.confirmations) && point.write != ToFailed(FailedPending)
  }

  lemma ArmKeepsCounted(c: Config, u: nat, v: View, millis: nat, first: nat)
    requires v.row.Some? && CountedOk(c, v, first) && ViewFits(v) && Allowed(c, v, Arm(millis))
    ensures CountedOk(c, LocalStep(c, u, v, Arm(millis)), first)
  {
    WaitOnce(c, v.waits, first, v.row.value.retries.n, v.restarts, Wait(u, millis));
  }

  lemma CommitKeepsCounted(c: Config, u: nat, v: View, w: Write, first: nat)
    requires v.row.Some? && CountedOk(c, v, first) && ViewFits(v) && Allowed(c, v, Commit(w))
    requires ViewFits(LocalStep(c, u, v, Commit(w)))
    ensures CountedOk(c, LocalStep(c, u, v, Commit(w)), first)
  {
    if w.ToPending? {
      NothingWaited(c, first, v.restarts);
    } else if w.ToRetry? {
      WaitedMore(c, v.waits, first, w.tries, v.restarts);
    }
  }

  lemma ReloadKeepsCounted(c: Config, u: nat, v: View, first: nat)
    requires v.row.Some? && CountedOk(c, v, first)
    ensures CountedOk(c, LocalStep(c, u, v, Reload), first)
  {
    var n := v.row.value.retries.n;
    WaitedBeforeRestart(c, v.waits, first, n, v.restarts);
    WaitedMore(c, v.waits, first, n, v.restarts + 1);
  }

  /** The moves that change neither the row nor the waits. */
  lemma OthersKeepCounted(c: Config, u: nat, v: View, lm: LocalMove, first: nat)
    requires v.row.Some? && CountedOk(c, v, first) && ViewFits(v) && Allowed(c, v, lm)
    requires !lm.Begin? && !lm.Arm? && !lm.Commit? && !lm.Reload?
    ensures LocalStep(c, u, v, lm).row == v.row && CountedOk(c, LocalStep(c, u, v, lm), first)
  {
  }

  lemma StepKeepsCounted(c: Config, u: nat, v: View, lm: LocalMove, first: nat)
    requires v.row.Some? && CountedOk(c, v, first)
    requires ViewFits(v) && Allowed(c, v, lm) && ViewFits(LocalStep(c, u, v, lm))
    ensures LocalStep(c, u, v, lm).row.Some? && CountedOk(c, LocalStep(c, u, v, lm), first)
  {
    if lm.Arm? {
      ArmKeepsCounted(c, u, v, lm.millis, first);
    } else if lm.Commit? {
      CommitKeepsCounted(c, u, v, lm.write, first);
    } else if lm.Reload? {
      ReloadKeepsCounted(c, u, v, first);
    } else {
      OthersKeepCounted(c, u, v, lm, first);
    }
  }

  lemma BeginIsCounted(c: Config, u: nat, v: View, msg: Message)
    requires Allowed(c, v, Begin(msg)) && v.waits == [] && msg.retries.Tries? && msg.retries.n <= c.confirmations
    ensures CountedOk(c, LocalStep(c, u, v, Begin(msg)), msg.retries.n)
  {
    NothingWaited(c, msg.retries.n, v.restarts);
    WaitedMore(c, [], msg.retries.n, msg.retries.n, v.restarts);
  }

  lemma StepKeepsRetries(c: Config, u: nat, v: View, lm: LocalMove)
    requires ViewFits(v) && RetriesOk(c, v) && Allowed(c, v, lm)
    requires ViewFits(LocalStep(c, u, v, lm))
    ensures RetriesOk(c, LocalStep(c, u, v, lm))
  {
    if v.row.Some? {
      if v.submitted.value.Tries? && v.submitted.value.n <= c.confirmations {
        StepKeepsCounted(c, u, v, lm, v.submitted.value.n);
      }
    } else if lm.Begin? && lm.msg.retries.Tries? && lm.msg.retries.n <= c.confirmations {
      BeginIsCounted(c, u, v, lm.msg);
    }
  }

  // ---- Whole runs ----

  predicate HistoryOk(c: Config, v: View) {
    ReportsOk(v) && BroadcastsOk(v) && EventsOk(v) && RetriesOk(c, v)
  }

  lemma {:induction false} RunKeepsHistory(c: Config, s: State, moves: seq<Move>, u: nat)
    requires Inv(s) && HistoryOk(c, ViewOf(s, u))
    ensures Inv(Run(c, s, moves)) && HistoryOk(c, ViewOf(Run(c, s, moves), u))
    decreases |moves|
  {
    if moves != [] {
      var s' := Step(c, s, moves[0]);
      var v, lm := ViewOf(s, u), LocalMoveOf(c, s, moves[0], u);
      StepKeepsInv(c, s, moves[0]);
      InvFits(s, u);
      InvFits(s', u);
      Simulates(c, s, moves[0], u);
      StepKeepsReports(c, u, v, lm);
      StepKeepsBroadcasts(c, u, v, lm);
      StepKeepsEvents(c, u, v, lm);
      StepKeepsRetries(c, u, v, lm);
      RunKeepsHistory(c, s', moves[1..], u);
    }
  }

  /** The facts about one transaction at the end of any run from the empty state. */
  lemma ReachedHistory(c: Config, moves: seq<Move>, u: nat)
    ensures var s := Run(c, INITIAL_STATE, moves);
            Inv(s) && ViewFits(ViewOf(s, u)) && HistoryOk(c, ViewOf(s, u))
    ensures CrashFree(moves) ==> Run(c, INITIAL_STATE, moves).history.restarts == 0
  {
    assert HistoryOk(c, ViewOf(INITIAL_STATE, u));
    RunKeepsHistory(c, INITIAL_STATE, moves, u);
    InvFits(Run(c, INITIAL_STATE, moves), u);
    ReachedInv(c, moves);
  }

  // ---- The theorems ----

  /** With or without restarts a transaction is reported at most once, and only after its row is finished; the
      report carries the row's final status and callback, and events exactly if the transaction completed. */
  lemma ReportedAtMostOnce(c: Config, moves: seq<Move>, u: nat)
    ensures var s := Run(c, INITIAL_STATE, moves);
            && |PostsFor(s, u)| <= 1
            && (PostsFor(s, u) != [] ==>
                  && u in s.rows && !Live(s.rows[u].status)
                  && PostsFor(s, u)[0].status == s.rows[u].status
                  && PostsFor(s, u)[0].url == s.rows[u].callback
                  && (PostsFor(s, u)[0].events.Some? <==> s.rows[u].status.Complete?))
  {
    ReachedHistory(c, moves, u);
  }

  /** A transaction is sent to the chain at most once per start of the process; without restarts, at most once. */
  lemma BroadcastAtMostOncePerStart(c: Config, moves: seq<Move>, u: nat)
    ensures var s := Run(c, INITIAL_STATE, moves);
            |BroadcastsFor(s, u)| <= s.history.restarts + 1 && (CrashFree(moves) ==> |BroadcastsFor(s, u)| <= 1)
  {
    ReachedHistory(c, moves, u);
  }

  /** In every interleaving the events stored in a completed row are those of its own receipt. */
  lemma StoredEventsAreOwn(c: Config, moves: seq<Move>, u: nat)
    ensures var s := Run(c, INITIAL_STATE, moves);
            u in s.rows && s.rows[u].status.Complete? ==>
              u in s.history.fetched && s.rows[u].events == Some(OwnEvents(s.history.fetched[u]))
  {
    ReachedHistory(c, moves, u);
  }

  /** Retries end, with any number of restarts: a counter that starts within the limit never passes it and the row never
      fails as pending; the timer is set at most limit - first + 1 times and once more for each restart, and each
      restart adds at most the longest wait to the closed-form bound. */
  lemma RetriesEnd(c: Config, moves: seq<Move>, u: nat)
    ensures var s := Run(c, INITIAL_STATE, moves);
            u in s.rows ==>
              u in s.history.submitted &&
              (s.history.submitted[u].Tries? && s.history.submitted[u].n <= c.confirmations ==>
              var first, C, R := s.history.submitted[u].n, c.confirmations, s.history.restarts;
              && s.rows[u].retries.Tries? && first <= s.rows[u].retries.n <= C
              && !s.rows[u].status.FailedPending?
              && |WaitsFor(s, u)| <= C - first + 1 + R
              && 2 * Millis(WaitsFor(s, u))
                 <= c.blockTime * ((C + 1) * (C + 2) - first * (first + 1)) + 2 * (R * (c.blockTime * (C + 1))))
  {
    var s := Run(c, INITIAL_STATE, moves);
    ReachedHistory(c, moves, u);
    if u in s.rows && s.history.submitted[u].Tries? && s.history.submitted[u].n <= c.confirmations {
      WaitBound(c, WaitsFor(s, u), s.history.submitted[u].n, s.rows[u].retries.n, s.history.restarts);
    }
  }

  /** Without restarts the bounds are tight: limit - first + 1 timers, and the closed form for the summed wait. */
  lemma RetriesEndWithoutRestarts(c: Config, moves: seq<Move>, u: nat)
    requires CrashFree(moves)
    ensures var s := Run(c, INITIAL_STATE, moves);
            u in s.rows ==>
              u in s.history.submitted &&
              (s.history.submitted[u].Tries? && s.history.submitted[u].n <= c.confirmations ==>
              var first, C := s.history.submitted[u].n, c.confirmations;
              && |WaitsFor(s, u)| <= C - first + 1
              && 2 * Millis(WaitsFor(s, u)) <= c.blockTime * ((C + 1) * (C + 2) - first * (first + 1)))
  {
    RetriesEnd(c, moves, u);
    ReachedInv(c, moves);
  }

  lemma WaitBound(c: Config, waits: seq<Wait>, first: nat, n: nat, restarts: nat)
    requires first <= n <= c.confirmations && WaitedUpTo(c, waits, first, n + 1, restarts)
    ensures |waits| <= c.confirmations - first + 1 + restarts
    ensures 2 * Millis(waits)
            <= c.blockTime * ((c.confirmations + 1) * (c.confirmations + 2) - first * (first + 1))
               + 2 * (restarts * (c.blockTime * (c.confirmations + 1)))
  {
    ClosedForm(c, first, n);
  }

  lemma ClosedForm(c: Config, first: nat, n: nat)
    requires first <= n <= c.confirmations
    ensures 2 * (c.blockTime * (Triangle(n + 1) - Triangle(first)))
            <= c.blockTime * ((c.confirmations + 1) * (c.confirmations + 2) - first * (first + 1))
  {
    var limit := c.confirmations + 1;
    TriangleGrows(n + 1, limit);
    TriangleClosed(first);
    TriangleClosed(limit);
    DoubleScale(c.blockTime, Triangle(n + 1) - Triangle(first), Triangle(limit) - Triangle(first));
  }

  lemma DoubleScale(b: nat, x: int, y: int)
    requires x <= y
    ensures 2 * (b * x) <= b * (2 * y)
  {
    Scale(b, x, y);
    assert b * (2 * y) == 2 * (b * y);
  }

  lemma NeverGasStep(c: Config, s: State, move: Move, u: nat)
    requires Inv(s) && (u in s.rows ==> !s.rows[u].status.FailedGas?)
    ensures u in Step(c, s, move).rows ==> !Step(c, s, move).rows[u].status.FailedGas?
  {
    if u in s.rows { StepAdvancesRows(c, s, move, u); }
    else if u in Step(c, s, move).rows { NewRowIsInitial(c, s, move, u); }
  }

  lemma NewRowIsInitial(c: Config, s: State, move: Move, u: nat)
    requires u !in s.rows && u in Step(c, s, move).rows
    ensures Step(c, s, move).rows[u].status.Initial?
  {
  }

  lemma {:induction false} NeverGasRun(c: Config, s: State, moves: seq<Move>, u: nat)
    requires Inv(s) && (u in s.rows ==> !s.rows[u].status.FailedGas?)
    ensures u in Run(c, s, moves).rows ==> !Run(c, s, moves).rows[u].status.FailedGas?
    decreases |moves|
  {
    if moves != [] {
      StepKeepsInv(c, s, moves[0]);
      NeverGasStep(c, s, moves[0], u);
      NeverGasRun(c, Step(c, s, moves[0]), moves[1..], u);
    }
  }

  /** The status for gas failures is never assigned. */
  lemma NeverGas(c: Config, moves: seq<Move>, u: nat)
    ensures var s := Run(c, INITIAL_STATE, moves);
            u in s.rows ==> !s.rows[u].status.FailedGas?
  {
    NeverGasRun(c, INITIAL_STATE, moves, u);
  }
}
