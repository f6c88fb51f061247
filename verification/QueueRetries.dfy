/** Counters and waits of one transaction, exactly: what they are, not only how large they can become. */
module QueueRetries {
  import opened Transactions
  import opened QueueSpec
  import opened QueueSafety
  import opened QueueTheorems
  import opened QueueLocal
  import opened QueueHistory

  // ---- The counter counts refusals ----

  /** The chain has not confirmed the transaction, and its counter still allows a retry. */
  predicate Refused(c: Config, s: State, move: Move, u: nat) {
    && move.GotFlag? && !move.confirmed && TxAt(s, move.id, FetchingFlag) && s.copies[move.id].msg.uuid == u
    && s.copies[move.id].msg.retries.Tries? && s.copies[move.id].msg.retries.n < c.confirmations
  }

  function Refusals(c: Config, s: State, moves: seq<Move>, u: nat): nat
    decreases |moves|
  {
    if moves == [] then 0
    else (if Refused(c, s, moves[0], u) then 1 else 0) + Refusals(c, Step(c, s, moves[0]), moves[1..], u)
  }

  /** A refusal has been answered but the row does not show it yet. */
  predicate Retrying(v: View) {
    v.copy.Some? && v.copy.value.place.Delivered? && v.copy.value.place.point.Writing?
    && v.copy.value.place.point.write.ToRetry?
  }

  predicate CountsUp(v: View, refusals: nat) {
    && (v.row.None? ==> v.submitted.None? && refusals == 0)
    && (v.submitted.Some? && v.submitted.value.Tries? ==>
          && v.row.Some? && v.row.value.retries.Tries?
          && var counted := v.row.value.retries.n + (if Retrying(v) then 1 else 0);
             counted <= v.submitted.value.n + refusals
             && (v.restarts == 0 ==> counted == v.submitted.value.n + refusals))
  }

  predicate ToRetrying(place: Place) {
    place.Delivered? && place.point.Writing? && place.point.write.ToRetry?
  }

  /** The automaton goes to the retry update exactly at a refusal. */
  lemma RetryAtRefusal(c: Config, s: State, move: Move, u: nat)
    requires Inv(s) && move.GotFlag?
    ensures var lm := LocalMoveOf(c, s, move, u);
            lm.Shift? && ToRetrying(lm.place) <==> Refused(c, s, move, u)
  {
    if TxAt(s, move.id, FetchingFlag) {
      assert Step(c, s, move).copies[move.id].place
             == Delivered(Verdict(c, s.copies[move.id].msg.retries, move.confirmed));
      assert Step(c, s, move) != s by {
        assert Step(c, s, move).copies[move.id].place != s.copies[move.id].place;
      }
    }
  }

  lemma NoRetryBeforeFlag(c: Config, s: State, move: Move, u: nat)
    requires Inv(s) && !move.GotFlag? && Shifting(move) && LocalMoveOf(c, s, move, u).Shift?
    requires LocalStepAllowed(c, s, move, u)
    ensures !ToRetrying(LocalMoveOf(c, s, move, u).place)
  {
    var copy := CopyOf(s, u).value;
    CopyIs(s, Mover(move).value, u);
    assert ShiftOk(c, copy, LocalMoveOf(c, s, move, u).place);
  }

  ghost predicate LocalStepAllowed(c: Config, s: State, move: Move, u: nat) {
    Allowed(c, ViewOf(s, u), LocalMoveOf(c, s, move, u))
  }

  lemma NoRetryOtherwise(c: Config, s: State, move: Move, u: nat)
    requires Inv(s) && !Shifting(move) && LocalMoveOf(c, s, move, u).Shift?
    ensures !ToRetrying(LocalMoveOf(c, s, move, u).place)
  {
  }

  lemma RefusalsAreShifts(c: Config, s: State, move: Move, u: nat)
    requires Inv(s)
    ensures var lm := LocalMoveOf(c, s, move, u);
            (lm.Shift? && ToRetrying(lm.place)) <==> Refused(c, s, move, u)
  {
    Simulates(c, s, move, u);
    if move.GotFlag? {
      RetryAtRefusal(c, s, move, u);
    } else if LocalMoveOf(c, s, move, u).Shift? {
      if Shifting(move) { NoRetryBeforeFlag(c, s, move, u); } else { NoRetryOtherwise(c, s, move, u); }
    }
  }

  lemma LocalStepCountsUp(c: Config, u: nat, v: View, lm: LocalMove, refusals: nat)
    requires ViewFits(v) && CountsUp(v, refusals) && Allowed(c, v, lm) && ViewFits(LocalStep(c, u, v, lm))
    ensures CountsUp(LocalStep(c, u, v, lm), refusals + (if lm.Shift? && ToRetrying(lm.place) then 1 else 0))
  {
  }

  lemma StepCountsUp(c: Config, s: State, move: Move, u: nat, refusals: nat)
    requires Inv(s) && CountsUp(ViewOf(s, u), refusals)
    ensures Inv(Step(c, s, move))
    ensures CountsUp(ViewOf(Step(c, s, move), u), refusals + (if Refused(c, s, move, u) then 1 else 0))
  {
    StepKeepsInv(c, s, move);
    InvFits(s, u);
    InvFits(Step(c, s, move), u);
    Simulates(c, s, move, u);
    RefusalsAreShifts(c, s, move, u);
    LocalStepCountsUp(c, u, ViewOf(s, u), LocalMoveOf(c, s, move, u), refusals);
  }

  lemma {:induction false} RunCountsUp(c: Config, s: State, moves: seq<Move>, u: nat, refusals: nat)
    requires Inv(s) && CountsUp(ViewOf(s, u), refusals)
    ensures CountsUp(ViewOf(Run(c, s, moves), u), refusals + Refusals(c, s, moves, u))
    decreases |moves|
  {
    if moves != [] {
      StepCountsUp(c, s, moves[0], u, refusals);
      RunCountsUp(c, Step(c, s, moves[0]), moves[1..], u,
                  refusals + (if Refused(c, s, moves[0], u) then 1 else 0));
    }
  }

  lemma ReachedCounts(c: Config, moves: seq<Move>, u: nat)
    ensures CountsUp(ViewOf(Run(c, INITIAL_STATE, moves), u), Refusals(c, INITIAL_STATE, moves, u))
  {
    RunCountsUp(c, INITIAL_STATE, moves, u, 0);
  }

  /** A transaction's counter is where it started plus one for each refusal of the chain, as soon as the row shows the
      last of them. A restart can only lose one that the row does not show yet. */
  lemma CounterCountsRefusals(c: Config, moves: seq<Move>, u: nat)
    ensures var s := Run(c, INITIAL_STATE, moves);
            var refusals := Refusals(c, INITIAL_STATE, moves, u);
            u in s.rows && u in s.history.submitted && s.history.submitted[u].Tries? ==>
              && s.rows[u].retries.Tries?
              && s.rows[u].retries.n <= s.history.submitted[u].n + refusals
              && (CrashFree(moves) && (forall id :: Holds(s, id, u) ==> !ToRetrying(s.copies[id].place)) ==>
                    s.rows[u].retries.n == s.history.submitted[u].n + refusals)
  {
    var s := Run(c, INITIAL_STATE, moves);
    ReachedCounts(c, moves, u);
    ReachedInv(c, moves);
    if u in s.rows && u in s.history.submitted { ShownByView(s, u); }
  }

  lemma ShownByView(s: State, u: nat)
    requires Inv(s) && u in s.rows && u in s.history.submitted
    ensures ViewOf(s, u).row == Some(s.rows[u]) && ViewOf(s, u).submitted == Some(s.history.submitted[u])
    ensures (forall id :: Holds(s, id, u) ==> !ToRetrying(s.copies[id].place)) ==> !Retrying(ViewOf(s, u))
  {
    if id :| Holds(s, id, u) { CopyIs(s, id, u); }
  }

  // ---- The waits grow ----

  /** Without restarts: one wait for each counter value so far, each one block time longer than the one before, and the
      last one present exactly when its timer has been set. */
  predicate WaitsExact(c: Config, u: nat, v: View) {
    v.restarts == 0 ==>
      && (v.row.None? ==> v.submitted.None? && v.waits == [])
      && (v.submitted.Some? && v.submitted.value.Tries? ==>
            && v.row.Some? && v.row.value.retries.Tries?
            && var first, n := v.submitted.value.n, v.row.value.retries.n;
            && first <= n
            && (forall k :: 0 <= k < |v.waits| ==> v.waits[k] == Wait(u, c.blockTime * (first + k + 1)))
            && (v.row.value.status.Initial? ==> v.waits == [] && n == first)
            && |v.waits| <= n - first + 1
            && (v.row.value.status in {Pending, Complete, FailedTimeout, FailedPending} ==> |v.waits| >= n - first)
            && (v.copy.Some? && v.copy.value.msg.Tx? ==>
                  && (BeforeTimer(v.copy.value) ==> |v.waits| == n - first)
                  && (v.row.value.status.Pending? && !BeforeTimer(v.copy.value) ==> |v.waits| == n - first + 1))
            && (v.row.value.status in {Complete, FailedTimeout, FailedPending} ==> |v.waits| == n - first + 1))
  }

  lemma ArmKeepsWaitsExact(c: Config, u: nat, v: View, millis: nat)
    requires ViewFits(v) && WaitsExact(c, u, v) && Allowed(c, v, Arm(millis))
    ensures WaitsExact(c, u, LocalStep(c, u, v, Arm(millis)))
  {
  }

  lemma CommitKeepsWaitsExact(c: Config, u: nat, v: View, w: Write)
    requires ViewFits(v) && WaitsExact(c, u, v) && Allowed(c, v, Commit(w)) && ViewFits(LocalStep(c, u, v, Commit(w)))
    ensures WaitsExact(c, u, LocalStep(c, u, v, Commit(w)))
  {
  }

  lemma LocalStepKeepsWaitsExact(c: Config, u: nat, v: View, lm: LocalMove)
    requires ViewFits(v) && WaitsExact(c, u, v) && Allowed(c, v, lm) && ViewFits(LocalStep(c, u, v, lm))
    ensures WaitsExact(c, u, LocalStep(c, u, v, lm))
  {
    if lm.Arm? {
      ArmKeepsWaitsExact(c, u, v, lm.millis);
    } else if lm.Commit? {
      CommitKeepsWaitsExact(c, u, v, lm.write);
    }
  }

  lemma {:induction false} RunKeepsWaitsExact(c: Config, s: State, moves: seq<Move>, u: nat)
    requires Inv(s) && WaitsExact(c, u, ViewOf(s, u))
    ensures WaitsExact(c, u, ViewOf(Run(c, s, moves), u))
    decreases |moves|
  {
    if moves != [] {
      var s' := Step(c, s, moves[0]);
      StepKeepsInv(c, s, moves[0]);
      InvFits(s, u);
      InvFits(s', u);
      Simulates(c, s, moves[0], u);
      LocalStepKeepsWaitsExact(c, u, ViewOf(s, u), LocalMoveOf(c, s, moves[0], u));
      RunKeepsWaitsExact(c, s', moves[1..], u);
    }
  }

  lemma ReachedWaits(c: Config, moves: seq<Move>, u: nat)
    ensures WaitsExact(c, u, ViewOf(Run(c, INITIAL_STATE, moves), u))
  {
    RunKeepsWaitsExact(c, INITIAL_STATE, moves, u);
  }

  /** Without restarts the k-th wait of a transaction whose counter started at `first` is exactly the block time
      multiplied by first + k + 1, and a transaction that is through has waited once for every value of its counter. */
  lemma WaitsGrow(c: Config, moves: seq<Move>, u: nat)
    requires CrashFree(moves)
    ensures var s := Run(c, INITIAL_STATE, moves);
            u in s.rows && u in s.history.submitted && s.history.submitted[u].Tries? ==>
              var first := s.history.submitted[u].n;
              && s.rows[u].retries.Tries? && first <= s.rows[u].retries.n
              && (forall k :: 0 <= k < |WaitsFor(s, u)| ==> WaitsFor(s, u)[k] == Wait(u, c.blockTime * (first + k + 1)))
              && (s.rows[u].status in {Complete, FailedTimeout, FailedPending} ==>
                    |WaitsFor(s, u)| == s.rows[u].retries.n - first + 1)
  {
    var s := Run(c, INITIAL_STATE, moves);
    ReachedWaits(c, moves, u);
    ReachedInv(c, moves);
    if u in s.rows && u in s.history.submitted { ShownByView(s, u); }
  }
}
