/** The Camp Share requests, callbacks and balance query as written, each proved to be the step of `LedgerSpec`. */
module LedgerService {
  import opened Transactions
  import opened OracleSpec
  import opened LedgerSpec
  import opened LedgerHistory

  // ---- Reading amounts ----

  /** Every event is read; the last one stays. */
  method ReadLastPair(p: Payload) returns (amount: Option<int>)
    ensures amount == LastPair(p)
  {
    if p.NotList? { return None; }
    var stakeAmount := 0;
    var i := 0;
    while i < |p.values|
      invariant i <= |p.values|
      invariant forall k :: 0 <= k < i ==> IsPair(p.values[k])
      invariant stakeAmount == if i == 0 then 0 else Atoi(p.values[i - 1].items[1].s)
    {
      if !IsPair(p.values[i]) { return None; }
      stakeAmount := Atoi(p.values[i].items[1].s);
      i := i + 1;
    }
    return Some(stakeAmount);
  }

  /** Every event must be a list; only the first is read. */
  method ReadFirstPair(p: Payload) returns (amount: Option<int>)
    ensures amount == FirstPair(p)
  {
    if p.NotList? { return None; }
    var interestAmount := 0;
    var index := 0;
    while index < |p.values|
      invariant index <= |p.values|
      invariant forall k :: 0 <= k < index ==> p.values[k].List?
      invariant index > 0 ==> IsPair(p.values[0])
      invariant interestAmount == if index == 0 then 0 else Atoi(p.values[0].items[1].s)
    {
      if !p.values[index].List? { return None; }
      if index == 0 {
        if !IsPair(p.values[0]) { return None; }
        interestAmount := Atoi(p.values[0].items[1].s);
      }
      index := index + 1;
    }
    return Some(interestAmount);
  }

  /** Every event is itself an amount; the last one stays. */
  method ReadLastPlain(p: Payload) returns (amount: Option<int>)
    ensures amount == LastPlain(p)
  {
    if p.NotList? { return None; }
    var interestAmount := 0;
    var i := 0;
    while i < |p.values|
      invariant i <= |p.values|
      invariant forall k :: 0 <= k < i ==> p.values[k].Text?
      invariant interestAmount == if i == 0 then 0 else Atoi(p.values[i - 1].s)
    {
      if !p.values[i].Text? { return None; }
      interestAmount := Atoi(p.values[i].s);
      i := i + 1;
    }
    return Some(interestAmount);
  }

  /** A user's rows, in insertion order. */
  function RowsOfUser(rows: seq<Row>, user: int): (own: seq<Row>)
    ensures forall i :: 0 <= i < |own| ==> own[i].user == user
  {
    if rows == [] then []
    else RowsOfUser(rows[..|rows| - 1], user)
         + (if rows[|rows| - 1].user == user then [rows[|rows| - 1]] else [])
  }

  function SumOf(rows: seq<Row>): int {
    if rows == [] then 0 else SumOf(rows[..|rows| - 1]) + rows[|rows| - 1].movement
  }

  /** The balance of the whole table is the sum over the rows the query returns. */
  lemma {:induction false} QueryGivesBalance(rows: seq<Row>, user: int)
    ensures SumOf(RowsOfUser(rows, user)) == Balance(rows, user)
  {
    if rows != [] {
      var before, last := rows[..|rows| - 1], rows[|rows| - 1];
      QueryGivesBalance(before, user);
      var own := RowsOfUser(before, user);
      if last.user == user {
        assert RowsOfUser(rows, user) == own + [last] && (own + [last])[..|own|] == own;
      } else {
        assert RowsOfUser(rows, user) == own;
      }
    }
  }

  /** The activities of a row. */
  function ActivitiesOf(activities: seq<CsActivity>, row: int): seq<CsActivity> {
    if activities == [] then []
    else ActivitiesOf(activities[..|activities| - 1], row)
         + (if activities[|activities| - 1].row == row then [activities[|activities| - 1]] else [])
  }

  function ActivitiesOfAll(activities: seq<CsActivity>, rows: seq<Row>): seq<CsActivity> {
    if rows == [] then []
    else ActivitiesOfAll(activities, rows[..|rows| - 1]) + ActivitiesOf(activities, rows[|rows| - 1].id)
  }

  lemma {:induction false} OneActivityEach(activities: seq<CsActivity>, row: int)
    requires forall i :: 0 <= i < |activities| ==> activities[i].row == i + 1
    ensures ActivitiesOf(activities, row) == if 1 <= row <= |activities| then [activities[row - 1]] else []
  {
    if activities != [] { OneActivityEach(activities[..|activities| - 1], row); }
  }

  predicate OwnActivities(activities: seq<CsActivity>, rows: seq<Row>) {
    (forall i :: 0 <= i < |activities| ==> activities[i].row == i + 1)
    && forall i :: 0 <= i < |rows| ==> 1 <= rows[i].id <= |activities|
  }

  lemma {:induction false} ListedCount(activities: seq<CsActivity>, rows: seq<Row>)
    requires OwnActivities(activities, rows)
    ensures |ActivitiesOfAll(activities, rows)| == |rows|
  {
    if rows != [] {
      ListedCount(activities, rows[..|rows| - 1]);
      OneActivityEach(activities, rows[|rows| - 1].id);
    }
  }

  /** The state query lists, for each of the user's rows in order, exactly the activity of that row. */
  lemma {:induction false} ListedActivity(activities: seq<CsActivity>, rows: seq<Row>, i: nat)
    requires OwnActivities(activities, rows) && i < |rows|
    ensures |ActivitiesOfAll(activities, rows)| == |rows|
    ensures ActivitiesOfAll(activities, rows)[i] == activities[rows[i].id - 1]
    decreases |rows|
  {
    var front := rows[..|rows| - 1];
    ListedCount(activities, front);
    ListedCount(activities, rows);
    OneActivityEach(activities, rows[|rows| - 1].id);
    if i < |front| { ListedActivity(activities, front, i); }
  }

  // ---- The tables ----

  class CampShareBook {
    var rows: seq<Row>
    var activities: seq<CsActivity>

    ghost function State(): Book
      reads this
    {
      Book(rows, activities)
    }

    constructor ()
      ensures State() == EMPTY_BOOK
    {
      rows, activities := [], [];
    }

    /** The first row of the table in descending order of ids, or zero. */
    method GetLatestCsId() returns (latest: int)
      ensures latest == Highest(rows)
    {
      if rows == [] { return 0; }
      latest := rows[0].id;
      var i := 1;
      while i < |rows|
        invariant 1 <= i <= |rows|
        invariant latest == Highest(rows[..i])
      {
        assert rows[..i + 1][..i] == rows[..i];
        if latest < rows[i].id { latest := rows[i].id; }
        i := i + 1;
      }
      assert rows[..|rows|] == rows;
    }

    /** What the five requests share: the next id, the row and its activity. */
    method Insert(user: int, kind: CsKind, amount: int, movement: int)
      modifies this
      ensures rows == old(rows) + [Row(NextId(old(rows)), user, kind, amount, movement)]
      ensures activities == old(activities) + [CsActivity(NextId(old(rows)), kind, ActivityPending)]
    {
      var latest := GetLatestCsId();
      var csId := latest + 1;
      if csId < 1 { csId := 1; }
      rows := rows + [Row(csId, user, kind, amount, movement)];
      activities := activities + [CsActivity(csId, kind, ActivityPending)];
    }

    method Stake(user: int, amount: int)
      modifies this
      ensures State() == Step(old(State()), StakeAsked(user, amount))
    {
      Insert(user, StakePLG, amount, amount);
    }

    method Unstake(user: int)
      modifies this
      ensures State() == Step(old(State()), UnstakeAsked(user))
    {
      Insert(user, UnstakePLG, 0, 0);
    }

    method Reinvest(user: int)
      modifies this
      ensures State() == Step(old(State()), ReinvestAsked(user))
    {
      Insert(user, ReinvestPLG, 0, 0);
    }

    method Withdraw(user: int)
      modifies this
      ensures State() == Step(old(State()), WithdrawAsked(user))
    {
      Insert(user, WithdrawInterest, 0, 0);
    }

    method Post(amount: int)
      modifies this
      ensures State() == Step(old(State()), PostAsked(amount))
    {
      Insert(0, PostInterest, amount, 0);
    }

    method UpdateActivity(id: nat, status: ActivityStatus)
      requires id < |activities|
      modifies this`activities
      ensures State() == WithStatus(old(State()), id, status)
    {
      activities := activities[id := activities[id].(status := status)];
    }

    method StakeCallback(r: Report)
      requires r.parent < |activities| && StatusCode(r.status) <= 2 && r.kind == StakePLG
      modifies this
      ensures State() == OnReport(old(State()), r)
    {
      if r.status != Complete { return; }
      var stakeAmount := ReadLastPair(r.events);
      if stakeAmount.None? { return; }
      UpdateActivity(r.parent, ActivitySuccess);
    }

    method UnstakeCallback(r: Report)
      requires r.parent < |activities| && StatusCode(r.status) <= 2 && r.kind == UnstakePLG
      modifies this
      ensures State() == OnReport(old(State()), r)
    {
      if r.status != Complete { return; }
      var unstakeAmount := ReadLastPair(r.events);
      if unstakeAmount.None? { return; }
      UpdateActivity(r.parent, ActivitySuccess);
      var k := Find(rows, activities[r.parent].row);
      if k.None? { return; }
      var cs := rows[k.value];
      cs := cs.(amount := unstakeAmount.value);
      cs := cs.(movement := -unstakeAmount.value);
      rows := rows[k.value := cs];
    }

    method ReinvestCallback(r: Report)
      requires r.parent < |activities| && StatusCode(r.status) <= 2 && r.kind == ReinvestPLG
      modifies this
      ensures State() == OnReport(old(State()), r)
    {
      if r.status != Complete { return; }
      var interestAmount := ReadFirstPair(r.events);
      if interestAmount.None? { return; }
      UpdateActivity(r.parent, ActivitySuccess);
      var k := Find(rows, activities[r.parent].row);
      if k.None? { return; }
      var reinvestCs := rows[k.value];
      reinvestCs := reinvestCs.(amount := interestAmount.value);
      reinvestCs := reinvestCs.(movement := interestAmount.value);
      rows := rows[k.value := reinvestCs];
    }

    method WithdrawCallback(r: Report)
      requires r.parent < |activities| && StatusCode(r.status) <= 2 && r.kind == WithdrawInterest
      modifies this
      ensures State() == OnReport(old(State()), r)
    {
      if r.status != Complete { return; }
      var withdrawalAmount := ReadLastPair(r.events);
      if withdrawalAmount.None? { return; }
      UpdateActivity(r.parent, ActivitySuccess);
      var k := Find(rows, activities[r.parent].row);
      if k.None? { return; }
      rows := rows[k.value := rows[k.value].(amount := withdrawalAmount.value)];
    }

    method PostCallback(r: Report)
      requires r.parent < |activities| && StatusCode(r.status) <= 2 && r.kind == PostInterest
      modifies this
      ensures State() == OnReport(old(State()), r)
    {
      if r.status != Complete { return; }
      var interestAmount := ReadLastPlain(r.events);
      if interestAmount.None? { return; }
      UpdateActivity(r.parent, ActivitySuccess);
      var k := Find(rows, activities[r.parent].row);
      if k.None? { return; }
      rows := rows[k.value := rows[k.value].(amount := interestAmount.value)];
    }

    /** The callback handler: dispatch on the type of a success, or record the kind of failure. */
    method CsCallbackHandler(r: Report)
      modifies this
      ensures State() == Step(old(State()), Answered(r))
    {
      if r.parent >= |activities| { return; }
      if StatusCode(r.status) <= 2 {
        match r.kind
        case StakePLG => StakeCallback(r);
        case UnstakePLG => UnstakeCallback(r);
        case WithdrawInterest => WithdrawCallback(r);
        case ReinvestPLG => ReinvestCallback(r);
        case PostInterest => PostCallback(r);
        case OtherCs =>
          if r.status == Complete { UpdateActivity(r.parent, ActivitySuccess); }
      } else {
        UpdateActivity(r.parent, FailureStatus(r.status, activities[r.parent].status));
      }
    }

    method Handle(m: Move)
      modifies this
      ensures State() == Step(old(State()), m)
    {
      match m {
        case StakeAsked(user, amount) => Stake(user, amount);
        case UnstakeAsked(user) => Unstake(user);
        case ReinvestAsked(user) => Reinvest(user);
        case WithdrawAsked(user) => Withdraw(user);
        case PostAsked(amount) => Post(amount);
        case Answered(report) => CsCallbackHandler(report);
      }
    }

    /** Any sequence of requests and reports after the history `before`: the object ends where the whole history does,
        so its rows are numbered without gaps and its balances are what the history says, for every user. */
    method HandleAll(ghost before: seq<Move>, moves: seq<Move>)
      requires State() == Run(before)
      modifies this
      ensures State() == Run(before + moves) && Numbered(State())
      ensures forall user :: Balance(rows, user)
                             == HistoryBalance(before + moves, |Asked(before + moves)|, user)
    {
      var i := 0;
      assert before + moves[..0] == before;
      while i < |moves|
        invariant i <= |moves| && State() == Run(before + moves[..i])
      {
        Handle(moves[i]);
        assert (before + moves[..i + 1])[..|before| + i] == before + moves[..i];
        i := i + 1;
      }
      assert moves[..|moves|] == moves;
      RunMatches(before + moves);
      forall user ensures Balance(rows, user) == HistoryBalance(before + moves, |Asked(before + moves)|, user) {
        BalanceIsHistory(before + moves, user);
      }
    }

    /** A user's balance and activities, accumulated over the user's rows. */
    method CsGetState(user: int) returns (balance: int, list: seq<CsActivity>)
      ensures balance == Balance(rows, user)
      ensures list == ActivitiesOfAll(activities, RowsOfUser(rows, user))
    {
      var csList := RowsOfUser(rows, user);
      var runningTotal := 0;
      var activitiesList: seq<CsActivity> := [];
      var i := 0;
      while i < |csList|
        invariant i <= |csList|
        invariant runningTotal == SumOf(csList[..i])
        invariant activitiesList == ActivitiesOfAll(activities, csList[..i])
      {
        assert csList[..i + 1][..i] == csList[..i];
        runningTotal := runningTotal + csList[i].movement;
        activitiesList := activitiesList + ActivitiesOf(activities, csList[i].id);
        i := i + 1;
      }
      assert csList[..|csList|] == csList;
      QueryGivesBalance(rows, user);
      return runningTotal, activitiesList;
    }
  }
}
