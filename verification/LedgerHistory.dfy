/** What the reported balance means, in terms of what was requested and reported, for every interleaving of requests
    and reports. */
module LedgerHistory {
  import opened Transactions
  import opened OracleSpec
  import opened LedgerSpec

  // ---- Reading a history ----

  /** The requests, in order. The request at position `i` owns row `i + 1` and activity `i`. */
  function Asked(moves: seq<Move>): (asked: seq<Move>)
    ensures forall i :: 0 <= i < |asked| ==> !asked[i].Answered?
  {
    if moves == [] then []
    else
      var last := moves[|moves| - 1];
      Asked(moves[..|moves| - 1]) + (if last.Answered? then [] else [last])
  }

  /** A report that succeeds for a request already made. */
  predicate Succeeds(before: seq<Move>, m: Move, id: nat) {
    && m.Answered?
    && m.report.parent == id < |Asked(before)|
    && m.report.status.Complete?
    && AmountOf(m.report.kind, m.report.events).Some?
  }

  /** The amount of the last successful report for a request. */
  function Settled(moves: seq<Move>, id: nat): Option<int> {
    if moves == [] then None
    else
      var before, last := moves[..|moves| - 1], moves[|moves| - 1];
      if Succeeds(before, last, id) then AmountOf(last.report.kind, last.report.events) else Settled(before, id)
  }

  /** What the last successful report that moves a balance made of a request's movement. */
  function Moved(moves: seq<Move>, id: nat): Option<int> {
    if moves == [] then None
    else
      var before, last := moves[..|moves| - 1], moves[|moves| - 1];
      if Succeeds(before, last, id) && last.report.kind.UnstakePLG? then
        Some(-AmountOf(last.report.kind, last.report.events).value)
      else if Succeeds(before, last, id) && last.report.kind.ReinvestPLG? then
        AmountOf(last.report.kind, last.report.events)
      else Moved(before, id)
  }

  function MovementOf(moves: seq<Move>, id: nat): int
    requires id < |Asked(moves)|
  {
    if Moved(moves, id).Some? then Moved(moves, id).value
    else if Asked(moves)[id].StakeAsked? then Asked(moves)[id].amount
    else 0
  }

  /** The sum over a user's first `n` requests. */
  function HistoryBalance(moves: seq<Move>, n: nat, user: int): int
    requires n <= |Asked(moves)|
  {
    if n == 0 then 0
    else HistoryBalance(moves, n - 1, user)
         + (if UserOf(Asked(moves)[n - 1]) == user then MovementOf(moves, n - 1) else 0)
  }

  // ---- Every row, for all histories ----

  predicate RowsMatch(moves: seq<Move>) {
    var b := Run(moves);
    && Numbered(b)
    && |b.rows| == |Asked(moves)|
    && forall i :: 0 <= i < |b.rows| ==>
         b.rows[i].user == UserOf(Asked(moves)[i])
         && b.rows[i].kind == KindOf(Asked(moves)[i])
         && b.rows[i].movement == MovementOf(moves, i)
  }

  lemma AnswerRows(b: Book, r: Report, i: nat)
    requires Numbered(b) && i < |b.rows|
    ensures var done := OnReport(b, r);
            |done.rows| == |b.rows| && done.rows[i].user == b.rows[i].user && done.rows[i].kind == b.rows[i].kind
            && done.rows[i] ==
               if r.parent == i && r.status.Complete? && AmountOf(r.kind, r.events).Some?
               then Patched(b.rows[i], r.kind, AmountOf(r.kind, r.events).value)
               else b.rows[i]
  {
    if r.parent < |b.rows| { FindsOwnRow(b.rows, r.parent); }
  }

  lemma AnswerMatches(before: seq<Move>, last: Move)
    requires last.Answered? && RowsMatch(before)
    ensures RowsMatch(before + [last])
  {
    var b := Run(before);
    assert (before + [last])[..|before|] == before;
    StepKeepsNumbered(b, last);
    assert |Step(b, last).rows| == |b.rows|;
    forall i | 0 <= i < |b.rows|
      ensures Step(b, last).rows[i].movement == MovementOf(before + [last], i)
      ensures Step(b, last).rows[i].user == b.rows[i].user && Step(b, last).rows[i].kind == b.rows[i].kind
    {
      AnswerRows(b, last.report, i);
      AnswerMovement(before, last, i);
    }
  }

  /** In every run row `i` belongs to request `i`, and its movement is what the reports made of it. */
  lemma {:induction false} RunMatches(moves: seq<Move>)
    ensures RowsMatch(moves)
  {
    if moves != [] {
      var before, last := moves[..|moves| - 1], moves[|moves| - 1];
      RunMatches(before);
      StepKeepsNumbered(Run(before), last);
      if last.Answered? {
        AnswerMatches(before, last);
        assert before + [last] == moves;
      } else {
        AskedMoves(before, last);
      }
    }
  }

  lemma AnswerMovement(before: seq<Move>, last: Move, i: nat)
    requires last.Answered? && i < |Asked(before)|
    ensures (before + [last])[..|before|] == before
    ensures Asked(before + [last]) == Asked(before)
    ensures MovementOf(before + [last], i) ==
            if Succeeds(before, last, i) && last.report.kind.UnstakePLG?
            then -AmountOf(last.report.kind, last.report.events).value
            else if Succeeds(before, last, i) && last.report.kind.ReinvestPLG?
            then AmountOf(last.report.kind, last.report.events).value
            else MovementOf(before, i)
  {
    assert (before + [last])[..|before|] == before;
  }

  lemma {:induction false} NothingBeforeAsking(moves: seq<Move>, id: nat)
    requires id >= |Asked(moves)|
    ensures Moved(moves, id) == None && Settled(moves, id) == None
  {
    if moves != [] { NothingBeforeAsking(moves[..|moves| - 1], id); }
  }

  lemma AskedMoves(before: seq<Move>, last: Move)
    requires !last.Answered?
    ensures Asked(before + [last]) == Asked(before) + [last]
    ensures forall i :: 0 <= i < |Asked(before)| ==> MovementOf(before + [last], i) == MovementOf(before, i)
    ensures MovementOf(before + [last], |Asked(before)|) == if last.StakeAsked? then last.amount else 0
  {
    assert (before + [last])[..|before|] == before;
    NothingBeforeAsking(before, |Asked(before)|);
  }

  // ---- Amounts and activities ----

  /** What the last successful report that notes an amount noted for a request. */
  function Noted(moves: seq<Move>, id: nat): Option<int> {
    if moves == [] then None
    else
      var before, last := moves[..|moves| - 1], moves[|moves| - 1];
      if Succeeds(before, last, id)
         && last.report.kind in {UnstakePLG, ReinvestPLG, WithdrawInterest, PostInterest}
      then AmountOf(last.report.kind, last.report.events)
      else Noted(before, id)
  }

  /** The amount of a request: as reported, else as requested. */
  function AmountNow(moves: seq<Move>, id: nat): int
    requires id < |Asked(moves)|
  {
    if Noted(moves, id).Some? then Noted(moves, id).value
    else if Asked(moves)[id].StakeAsked? || Asked(moves)[id].PostAsked? then Asked(moves)[id].amount
    else 0
  }

  /** The status of a request's activity: what the last report made of it that succeeded or failed. */
  function StatusNow(moves: seq<Move>, id: nat): ActivityStatus {
    if moves == [] then ActivityPending
    else
      var before, last := moves[..|moves| - 1], moves[|moves| - 1];
      if Succeeds(before, last, id) then ActivitySuccess
      else if last.Answered? && last.report.parent == id < |Asked(before)| then
        match last.report.status
        case FailedTimeout => ActivityTimeout
        case FailedGas => ActivityGasError
        case FailedInitial => ActivityInitialError
        case FailedReceipt => ActivityReceiptError
        case FailedPending => ActivityPendingError
        case _ => StatusNow(before, id)
      else StatusNow(before, id)
  }

  lemma {:induction false} PendingBeforeAsking(moves: seq<Move>, id: nat)
    requires id >= |Asked(moves)|
    ensures Noted(moves, id) == None && StatusNow(moves, id) == ActivityPending
  {
    if moves != [] { PendingBeforeAsking(moves[..|moves| - 1], id); }
  }

  lemma AnswerStatus(b: Book, r: Report, i: nat)
    requires Numbered(b) && i < |b.rows|
    ensures var done := OnReport(b, r);
            |done.activities| == |b.activities|
            && done.activities[i] == b.activities[i].(status :=
                 if r.parent != i then b.activities[i].status
                 else if r.status.Complete? then
                   (if AmountOf(r.kind, r.events).Some? then ActivitySuccess else b.activities[i].status)
                 else FailureStatus(r.status, b.activities[i].status))
  {
  }

  /** One report: the amount it leaves. */
  lemma AnswerAmount(before: seq<Move>, last: Move, i: nat)
    requires last.Answered? && i < |Asked(before)| && RowsMatch(before)
    requires Run(before).rows[i].amount == AmountNow(before, i)
    ensures Asked(before + [last]) == Asked(before) && |Run(before + [last]).rows| == |Run(before).rows|
    ensures Run(before + [last]).rows[i].amount == AmountNow(before + [last], i)
  {
    assert (before + [last])[..|before|] == before;
    AnswerRows(Run(before), last.report, i);
  }

  /** One report: the status it leaves. */
  lemma AnswerStatusNow(before: seq<Move>, last: Move, i: nat)
    requires last.Answered? && i < |Asked(before)| && RowsMatch(before)
    requires Run(before).activities[i].status == StatusNow(before, i)
    ensures Asked(before + [last]) == Asked(before)
    ensures |Run(before + [last]).activities| == |Run(before).activities|
    ensures Run(before + [last]).activities[i].status == StatusNow(before + [last], i)
  {
    assert (before + [last])[..|before|] == before;
    AnswerStatus(Run(before), last.report, i);
  }

  lemma AskedNotes(before: seq<Move>, last: Move)
    requires !last.Answered?
    ensures Asked(before + [last]) == Asked(before) + [last]
    ensures forall i :: 0 <= i < |Asked(before)| ==>
              AmountNow(before + [last], i) == AmountNow(before, i)
              && StatusNow(before + [last], i) == StatusNow(before, i)
    ensures AmountNow(before + [last], |Asked(before)|)
            == if last.StakeAsked? || last.PostAsked? then last.amount else 0
    ensures StatusNow(before + [last], |Asked(before)|) == ActivityPending
  {
    assert (before + [last])[..|before|] == before;
    PendingBeforeAsking(before, |Asked(before)|);
  }

  /** In every run the amount of row `i` and the status of its activity are what the reports about request `i` made of
      them. */
  lemma {:induction false} RunNotes(moves: seq<Move>)
    ensures var b := Run(moves);
            |b.rows| == |b.activities| == |Asked(moves)|
            && forall i :: 0 <= i < |b.rows| ==>
                 b.rows[i].amount == AmountNow(moves, i) && b.activities[i].status == StatusNow(moves, i)
  {
    RunMatches(moves);
    if moves != [] {
      var before, last := moves[..|moves| - 1], moves[|moves| - 1];
      assert before + [last] == moves;
      RunNotes(before);
      RunMatches(before);
      if last.Answered? {
        forall i | 0 <= i < |Asked(before)|
          ensures Run(moves).rows[i].amount == AmountNow(moves, i)
          ensures Run(moves).activities[i].status == StatusNow(moves, i)
        {
          AnswerAmount(before, last, i);
          AnswerStatusNow(before, last, i);
        }
      } else {
        AskedNotes(before, last);
      }
    }
  }

  // ---- The balance ----

  lemma {:induction false} BalanceOfPrefix(moves: seq<Move>, n: nat, user: int)
    requires n <= |Asked(moves)|
    ensures |Run(moves).rows| == |Asked(moves)|
    ensures Balance(Run(moves).rows[..n], user) == HistoryBalance(moves, n, user)
  {
    RunMatches(moves);
    if n > 0 {
      BalanceOfPrefix(moves, n - 1, user);
      assert Run(moves).rows[..n][..n - 1] == Run(moves).rows[..n - 1];
    }
  }

  /** The reported balance is what the history says, for every user and whatever reports arrive in whatever order. */
  lemma BalanceIsHistory(moves: seq<Move>, user: int)
    ensures Balance(Run(moves).rows, user) == HistoryBalance(moves, |Asked(moves)|, user)
  {
    BalanceOfPrefix(moves, |Asked(moves)|, user);
    assert Run(moves).rows[..|Asked(moves)|] == Run(moves).rows;
  }

  // ---- Reports that carry the type of their request ----

  /** Every successful report names the type of the request it answers. */
  predicate WellTyped(moves: seq<Move>) {
    moves == []
    || (var before, last := moves[..|moves| - 1], moves[|moves| - 1];
        WellTyped(before)
        && (last.Answered? && Succeeds(before, last, last.report.parent) ==>
              last.report.kind == KindOf(Asked(before)[last.report.parent])))
  }

  function OrZero(o: Option<int>): int {
    if o.Some? then o.value else 0
  }

  /** What request `id` adds to the balance: stakes when requested, unstakes and reinvestments when completed. */
  function Share(moves: seq<Move>, id: nat): int
    requires id < |Asked(moves)|
  {
    match Asked(moves)[id]
    case StakeAsked(_, amount) => amount
    case UnstakeAsked(_) => -OrZero(Settled(moves, id))
    case ReinvestAsked(_) => OrZero(Settled(moves, id))
    case WithdrawAsked(_) => 0
    case PostAsked(_) => 0
  }

  /** The same with stakes counted only once they succeeded. */
  function ConfirmedShare(moves: seq<Move>, id: nat): int
    requires id < |Asked(moves)|
  {
    if Asked(moves)[id].StakeAsked? && Settled(moves, id).None? then 0 else Share(moves, id)
  }

  function UnconfirmedStake(moves: seq<Move>, id: nat): int
    requires id < |Asked(moves)|
  {
    if Asked(moves)[id].StakeAsked? && Settled(moves, id).None? then Asked(moves)[id].amount else 0
  }

  function Shares(moves: seq<Move>, n: nat, user: int): int
    requires n <= |Asked(moves)|
  {
    if n == 0 then 0
    else Shares(moves, n - 1, user) + (if UserOf(Asked(moves)[n - 1]) == user then Share(moves, n - 1) else 0)
  }

  function ConfirmedShares(moves: seq<Move>, n: nat, user: int): int
    requires n <= |Asked(moves)|
  {
    if n == 0 then 0
    else ConfirmedShares(moves, n - 1, user)
         + (if UserOf(Asked(moves)[n - 1]) == user then ConfirmedShare(moves, n - 1) else 0)
  }

  function UnconfirmedStakes(moves: seq<Move>, n: nat, user: int): int
    requires n <= |Asked(moves)|
  {
    if n == 0 then 0
    else UnconfirmedStakes(moves, n - 1, user)
         + (if UserOf(Asked(moves)[n - 1]) == user then UnconfirmedStake(moves, n - 1) else 0)
  }

  lemma {:induction false} AskedGrows(moves: seq<Move>, n: nat)
    requires n <= |moves|
    ensures |Asked(moves[..n])| <= |Asked(moves)|
    ensures forall i :: 0 <= i < |Asked(moves[..n])| ==> Asked(moves)[i] == Asked(moves[..n])[i]
  {
    if n < |moves| {
      AskedGrows(moves[..|moves| - 1], n);
      assert moves[..|moves| - 1][..n] == moves[..n];
    } else {
      assert moves[..n] == moves;
    }
  }

  /** With well-typed reports only an unstake or a reinvestment has its movement changed, to its settled amount. */
  lemma {:induction false} MovedIsSettled(moves: seq<Move>, id: nat)
    requires WellTyped(moves) && id < |Asked(moves)|
    ensures var m := Asked(moves)[id];
            Moved(moves, id) ==
              if m.UnstakeAsked? && Settled(moves, id).Some? then Some(-Settled(moves, id).value)
              else if m.ReinvestAsked? then Settled(moves, id)
              else None
  {
    var before, last := moves[..|moves| - 1], moves[|moves| - 1];
    AskedGrows(moves, |moves| - 1);
    if id < |Asked(before)| {
      MovedIsSettled(before, id);
    } else {
      NothingBeforeAsking(before, id);
    }
  }

  lemma {:induction false} HistoryIsShares(moves: seq<Move>, n: nat, user: int)
    requires WellTyped(moves) && n <= |Asked(moves)|
    ensures HistoryBalance(moves, n, user) == Shares(moves, n, user)
    ensures Shares(moves, n, user) == ConfirmedShares(moves, n, user) + UnconfirmedStakes(moves, n, user)
  {
    if n > 0 {
      HistoryIsShares(moves, n - 1, user);
      MovedIsSettled(moves, n - 1);
    }
  }

  /** The reported balance is requested stakes less completed unstakes plus completed reinvestments; it exceeds the
      confirmed ledger by exactly the stakes that have not succeeded. */
  lemma BalanceIsShares(moves: seq<Move>, user: int)
    requires WellTyped(moves)
    ensures var n := |Asked(moves)|;
            && Balance(Run(moves).rows, user) == Shares(moves, n, user)
            && Balance(Run(moves).rows, user) - ConfirmedShares(moves, n, user) == UnconfirmedStakes(moves, n, user)
  {
    BalanceIsHistory(moves, user);
    HistoryIsShares(moves, |Asked(moves)|, user);
  }

  function MistypedMoves(): seq<Move> {
    [StakeAsked(1, 10), Answered(Report(Complete, 0, UnstakePLG, Items([])))]
  }

  lemma MistypedFacts()
    ensures var moves := MistypedMoves();
            Asked(moves) == [StakeAsked(1, 10)] && Moved(moves, 0) == Some(0) && !WellTyped(moves)
  {
    var moves := MistypedMoves();
    var first := [StakeAsked(1, 10)];
    assert moves[..1] == first && first[..0] == [] && Asked([]) == [];
    assert Asked(first) == [] + [first[0]] && Asked(moves) == Asked(first) + [];
    assert AmountOf(UnstakePLG, Items([])) == Some(0);
    assert Succeeds(first, moves[1], 0);
  }

  /** The types matter: an unstake report for a stake's activity replaces the stake's movement. */
  lemma MistypedReportBreaksTheBalance()
    ensures !WellTyped(MistypedMoves())
    ensures Balance(Run(MistypedMoves()).rows, 1) == 0
    ensures Shares(MistypedMoves(), |Asked(MistypedMoves())|, 1) == 10
  {
    var moves := MistypedMoves();
    MistypedFacts();
    BalanceIsHistory(moves, 1);
    assert HistoryBalance(moves, 1, 1) == HistoryBalance(moves, 0, 1) + MovementOf(moves, 0);
    assert Shares(moves, 1, 1) == Shares(moves, 0, 1) + Share(moves, 0);
  }

  // ---- Repeated reports ----

  /** The book already holds everything a report would write. */
  predicate Absorbed(b: Book, r: Report) {
    OnReport(b, r) == b
  }

  predicate Addresses(m: Move, id: nat) {
    m.Answered? && m.report.parent == id
  }

  lemma OnceIsAbsorbed(b: Book, r: Report)
    requires Numbered(b)
    ensures Absorbed(OnReport(b, r), r)
  {
    var done := OnReport(b, r);
    if r.parent < |b.activities| {
      StepKeepsNumbered(b, Answered(r));
      FindsOwnRow(b.rows, r.parent);
      FindsOwnRow(done.rows, r.parent);
      if r.status.Complete? && AmountOf(r.kind, r.events).Some? {
        assert OnReport(done, r).rows == done.rows;
        assert OnReport(done, r).activities == done.activities;
      } else {
        assert OnReport(done, r).activities == done.activities;
      }
    }
  }

  /** The parts of a book a report reads and writes. */
  predicate SamePlace(b: Book, b': Book, id: nat) {
    && id < |b.rows| == |b.activities|
    && id < |b'.rows| == |b'.activities|
    && b.rows[id] == b'.rows[id]
    && b.activities[id] == b'.activities[id]
  }

  lemma OthersKeepPlace(b: Book, m: Move, id: nat)
    requires Numbered(b) && id < |b.rows| && !Addresses(m, id)
    ensures SamePlace(b, Step(b, m), id)
  {
    if m.Answered? && m.report.parent < |b.rows| { FindsOwnRow(b.rows, m.report.parent); }
  }

  lemma {:induction false} RunKeepsPlace(b: Book, moves: seq<Move>, id: nat)
    requires Numbered(b) && id < |b.rows| && forall i :: 0 <= i < |moves| ==> !Addresses(moves[i], id)
    ensures SamePlace(b, RunFrom(b, moves), id)
  {
    if moves != [] {
      RunKeepsPlace(b, moves[..|moves| - 1], id);
      RunKeepsNumbered(b, moves[..|moves| - 1]);
      OthersKeepPlace(RunFrom(b, moves[..|moves| - 1]), moves[|moves| - 1], id);
    }
  }

  lemma AbsorbedByPlace(b: Book, b': Book, r: Report)
    requires Numbered(b) && Numbered(b') && SamePlace(b, b', r.parent) && Absorbed(b, r)
    ensures Absorbed(b', r)
  {
    FindsOwnRow(b.rows, r.parent);
    FindsOwnRow(b'.rows, r.parent);
    var done, done' := OnReport(b, r), OnReport(b', r);
    assert done.activities[r.parent] == b.activities[r.parent] && done.rows[r.parent] == b.rows[r.parent];
    assert done'.activities == b'.activities;
    assert done'.rows == b'.rows;
  }

  /** A report delivered again changes nothing at all, however many requests and reports about other activities came
      in between. */
  lemma RepeatedReportChangesNothing(moves: seq<Move>, r: Report, between: seq<Move>)
    requires forall i :: 0 <= i < |between| ==> !Addresses(between[i], r.parent)
    requires r.parent < |Asked(moves)|
    ensures var b := RunFrom(Step(Run(moves), Answered(r)), between);
            Step(b, Answered(r)) == b
  {
    RunMatches(moves);
    var once := Step(Run(moves), Answered(r));
    StepKeepsNumbered(Run(moves), Answered(r));
    AnswerRows(Run(moves), r, r.parent);
    OnceIsAbsorbed(Run(moves), r);
    RunKeepsPlace(once, between, r.parent);
    RunKeepsNumbered(once, between);
    AbsorbedByPlace(once, RunFrom(once, between), r);
  }

  // ---- Other users ----

  /** A move that is not about a user: another user's request, or a report about another user's activity. */
  predicate Foreign(b: Book, m: Move, user: int) {
    if m.Answered? then m.report.parent < |b.rows| ==> b.rows[m.report.parent].user != user
    else UserOf(m) != user
  }

  predicate ForeignRun(b: Book, moves: seq<Move>, user: int) {
    moves == []
    || (ForeignRun(b, moves[..|moves| - 1], user)
        && Foreign(RunFrom(b, moves[..|moves| - 1]), moves[|moves| - 1], user))
  }

  lemma {:induction false} SameBalance(rows: seq<Row>, rows': seq<Row>, user: int)
    requires |rows| == |rows'|
    requires forall i :: 0 <= i < |rows| ==> rows[i] == rows'[i] || (rows[i].user != user && rows'[i].user != user)
    ensures Balance(rows, user) == Balance(rows', user)
  {
    if rows != [] { SameBalance(rows[..|rows| - 1], rows'[..|rows| - 1], user); }
  }

  lemma ForeignStep(b: Book, m: Move, user: int)
    requires Numbered(b) && Foreign(b, m, user)
    ensures Balance(Step(b, m).rows, user) == Balance(b.rows, user)
  {
    if m.Answered? {
      if m.report.parent < |b.rows| { FindsOwnRow(b.rows, m.report.parent); }
      SameBalance(b.rows, Step(b, m).rows, user);
    } else {
      assert Step(b, m).rows[..|b.rows|] == b.rows;
    }
  }

  /** However long a run of other users' requests and reports, a user's balance stays. */
  lemma {:induction false} OthersDoNotMatter(b: Book, moves: seq<Move>, user: int)
    requires Numbered(b) && ForeignRun(b, moves, user)
    ensures Balance(RunFrom(b, moves).rows, user) == Balance(b.rows, user)
  {
    if moves != [] {
      var before := moves[..|moves| - 1];
      OthersDoNotMatter(b, before, user);
      RunKeepsNumbered(b, before);
      ForeignStep(RunFrom(b, before), moves[|moves| - 1], user);
    }
  }

  /** Failures never move a balance, and neither do withdrawals and interest postings whose reports carry their type. */
  lemma FailuresMoveNothing(b: Book, r: Report, user: int)
    requires Numbered(b) && (!r.status.Complete? || !(r.kind.UnstakePLG? || r.kind.ReinvestPLG?))
    ensures Balance(OnReport(b, r).rows, user) == Balance(b.rows, user)
  {
    if r.parent < |b.rows| { FindsOwnRow(b.rows, r.parent); }
    SameMovements(b.rows, OnReport(b, r).rows, user);
  }

  lemma {:induction false} SameMovements(rows: seq<Row>, rows': seq<Row>, user: int)
    requires |rows| == |rows'|
    requires forall i :: 0 <= i < |rows| ==> rows[i].user == rows'[i].user && rows[i].movement == rows'[i].movement
    ensures Balance(rows, user) == Balance(rows', user)
  {
    if rows != [] { SameMovements(rows[..|rows| - 1], rows'[..|rows| - 1], user); }
  }
}
