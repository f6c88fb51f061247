/** Runs showing where stronger claims about the queue fail. */
module QueueWitnesses {
  import opened Transactions
  import opened QueueSpec
  import opened QueueSafety
  import opened QueueTheorems
  import opened QueueLocal
  import opened QueueCrashes
  import opened QueueRuns

  /** A message does not always have its row's status: between the update and the handler's next block it lags. */
  lemma MessageCanLag()
    ensures exists moves: seq<Move>, id ::
              var s := Run(CONFIG, INITIAL_STATE, moves);
              CrashFree(moves) && Holds(s, id, 1) && 1 in s.rows && s.copies[id].msg.status != s.rows[1].status
  {
    var m := Tx(1, Initial, Tries(0), false, Some("callback"), 1);
    RunsFirstHalf(INITIAL_STATE, m);
    var moves := FirstHalf(m, 0);
    var s := Run(CONFIG, INITIAL_STATE, moves);
    assert CrashFree(moves);
    assert Holds(s, Pushed(0), 1) && 1 in s.rows && s.copies[Pushed(0)].msg.status != s.rows[1].status;
  }

  /** Posted events can be another transaction's: there is a run without restarts in which transaction 1 stores the
      events of its own receipt but reports those of transaction 2's receipt. */
  lemma PostedEventsCanBeForeign()
    ensures exists moves: seq<Move> ::
              var s := Run(CONFIG, INITIAL_STATE, moves);
              && CrashFree(moves)
              && 1 in s.history.fetched && s.history.fetched[1] == Logged("a")
              && 2 in s.history.fetched && s.history.fetched[2] == Logged("b")
              && 1 in s.rows && s.rows[1].events == Some(Decoded(["a"]))
              && s.history.posts == [Post(1, Some("callback"), Complete, Some(Decoded(["b"])))]
  {
    RunsForeignReport(Tx(1, Initial, Tries(0), false, Some("callback"), 1),
                      Tx(2, Initial, Tries(0), false, Some("callback"), 2));
  }

  /** A deployed project's address can be another transaction's: there is a run without restarts in which transaction 1
      deploys project 1, but the address stored for it, in its row and in the project, comes from transaction 2's
      receipt. */
  lemma DeployedAddressCanBeForeign()
    ensures exists moves: seq<Move> ::
              var s := Run(CONFIG, INITIAL_STATE, moves);
              && CrashFree(moves)
              && 1 in s.history.fetched && s.history.fetched[1] == Logged("a")
              && 2 in s.history.fetched && s.history.fetched[2] == Logged("b")
              && 1 in s.rows && s.rows[1].address == Some(Decoded(["b"]))
              && 1 in s.projects && s.projects[1] == Decoded(["b"])
  {
    RunsForeignAddress(Tx(1, Initial, Tries(0), true, Some("callback"), 1),
                       Tx(2, Initial, Tries(0), false, Some("callback"), 2));
  }

  /** A report can be lost: there is a run whose only restart comes when transaction 1 is complete, has a callback and
      has not been reported; after it nothing is left that could report. */
  lemma ReportCanBeLost()
    ensures exists moves: seq<Move> ::
              var s := Run(CONFIG, INITIAL_STATE, moves);
              && Lost(CONFIG, INITIAL_STATE, moves, 1)
              && 1 in s.rows && s.rows[1].status == Complete && s.rows[1].callback == Some("callback")
              && s.history.posts == [] && s.copies == map[]
  {
    RunsLoss(Tx(1, Initial, Tries(0), false, Some("callback"), 1));
  }

  /** A deployed project's address can be lost: there is a run after which the deployment is complete, its row has no
      address, and no message is left that could store one. */
  lemma AddressCanBeLost()
    ensures exists moves: seq<Move> ::
              var s := Run(CONFIG, INITIAL_STATE, moves);
              && 1 in s.rows && s.rows[1].status == Complete && s.rows[1].deploy && s.rows[1].address == None
              && s.copies == map[]
  {
    RunsLoss(Tx(1, Initial, Tries(0), true, Some("callback"), 1));
  }

  /** A transaction without a retry counter can complete outside development, thanks to a restart that finds it
      PENDING. */
  lemma RawTransactionCanComplete()
    ensures !CONFIG.dev
    ensures exists moves: seq<Move> ::
              var s := Run(CONFIG, INITIAL_STATE, moves);
              && 1 in s.history.submitted && s.history.submitted[1] == Absent
              && 1 in s.rows && s.rows[1].status == Complete
  {
    RunsRawCompletion(Tx(1, Initial, Absent, false, Some("callback"), 1));
  }

  /** A delivery can be withheld although the gas is back: there is a run without restarts in which both readings of
      transaction 1 are too low and a later reading brings the latch back, and its only copy is still withheld. */
  lemma WithheldDespiteGas()
    ensures exists moves: seq<Move> ::
              var s := Run(CONFIG, INITIAL_STATE, moves);
              && CrashFree(moves) && s.gasOk && 1 in s.rows && s.rows[1].status == Initial
              && At(s, Pushed(0), Withheld) && Holds(s, Pushed(0), 1)
  {
    RunsStarvedAndRecovered(Tx(1, Initial, Tries(0), false, Some("callback"), 1));
  }

  /** With restarts the timer can be set more often than the retry limit allows: a counter that starts at the limit
      allows it once, and here it is set twice. */
  lemma RestartsRepeatWaits()
    ensures exists moves: seq<Move> ::
              var s := Run(CONFIG, INITIAL_STATE, moves);
              && 1 in s.rows && 1 in s.history.submitted && s.history.submitted[1] == Tries(CONFIG.confirmations)
              && |WaitsFor(s, 1)| > 1
  {
    RunsArmingTwice(Tx(1, Initial, Tries(CONFIG.confirmations), false, Some("callback"), 1));
  }

  /** After an overlapping warm-up a transaction can have two live copies: while a handler holds it, it is pushed
      again. */
  lemma OverlapCanDuplicate()
    ensures exists moves: seq<Move> ::
              var s := Run(CONFIG, INITIAL_STATE, moves);
              CrashFree(moves) && LiveRow(s, 1) && |LiveCopies(Overlapped(s), 1)| == 2
  {
    var m := Tx(1, Initial, Tries(0), false, Some("callback"), 1);
    var s := Run(CONFIG, INITIAL_STATE, FirstHalf(m, 0));
    RunsFirstHalf(INITIAL_STATE, m);
    assert CrashFree(FirstHalf(m, 0));
    DuplicatedByOverlap(s, m);
  }
}
