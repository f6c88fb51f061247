/** The Camp Share ledger: a row and an activity per request, patched when the blockchain service reports back, and a
    balance that is the sum of a user's movements. */
module LedgerSpec {
  import opened Transactions
  import opened OracleSpec

  datatype CsKind = StakePLG | UnstakePLG | ReinvestPLG | WithdrawInterest | PostInterest | OtherCs

  datatype Row = Row(id: int, user: int, kind: CsKind, amount: int, movement: int)

  datatype CsActivity = CsActivity(row: int, kind: CsKind, status: ActivityStatus)

  datatype Book = Book(rows: seq<Row>, activities: seq<CsActivity>)

  /** A report about one activity. */
  datatype Report = Report(status: TxStatus, parent: nat, kind: CsKind, events: Payload)

  datatype Move =
    | StakeAsked(user: int, amount: int)
    | UnstakeAsked(user: int)
    | ReinvestAsked(user: int)
    | WithdrawAsked(user: int)
    | PostAsked(amount: int)
    | Answered(report: Report)

  const EMPTY_BOOK := Book([], [])

  // ---- Requests ----

  /** The highest id in use; zero for an empty table. */
  function Highest(rows: seq<Row>): int {
    if rows == [] then 0
    else if |rows| == 1 then rows[0].id
    else
      var rest, last := Highest(rows[..|rows| - 1]), rows[|rows| - 1].id;
      if rest < last then last else rest
  }

  function NextId(rows: seq<Row>): int {
    if Highest(rows) + 1 < 1 then 1 else Highest(rows) + 1
  }

  function KindOf(m: Move): CsKind
    requires !m.Answered?
  {
    match m
    case StakeAsked(_, _) => StakePLG
    case UnstakeAsked(_) => UnstakePLG
    case ReinvestAsked(_) => ReinvestPLG
    case WithdrawAsked(_) => WithdrawInterest
    case PostAsked(_) => PostInterest
  }

  /** An interest posting belongs to no user and is stored under user zero. */
  function UserOf(m: Move): int
    requires !m.Answered?
  {
    if m.PostAsked? then 0 else m.user
  }

  /** Only a stake moves the balance when it is requested. */
  function NewRow(id: int, m: Move): Row
    requires !m.Answered?
  {
    var amount := if m.StakeAsked? || m.PostAsked? then m.amount else 0;
    Row(id, UserOf(m), KindOf(m), amount, if m.StakeAsked? then m.amount else 0)
  }

  function OnAsked(b: Book, m: Move): Book
    requires !m.Answered?
  {
    var id := NextId(b.rows);
    Book(b.rows + [NewRow(id, m)], b.activities + [CsActivity(id, KindOf(m), ActivityPending)])
  }

  // ---- Reading amounts from events ----

  /** An event whose second field is text. */
  predicate IsPair(v: Value) {
    v.List? && |v.items| > 1 && v.items[1].Text?
  }

  /** The amount of the last event, zero without events, nothing when an event has another form. */
  function LastPair(p: Payload): Option<int> {
    if p.NotList? || exists i :: 0 <= i < |p.values| && !IsPair(p.values[i]) then None
    else if p.values == [] then Some(0)
    else Some(Atoi(p.values[|p.values| - 1].items[1].s))
  }

  /** The amount of the first event; the other events need only be lists. */
  function FirstPair(p: Payload): Option<int> {
    if p.NotList? || exists i :: 0 <= i < |p.values| && !p.values[i].List? then None
    else if p.values == [] then Some(0)
    else if !IsPair(p.values[0]) then None
    else Some(Atoi(p.values[0].items[1].s))
  }

  /** The last event itself is the amount. */
  function LastPlain(p: Payload): Option<int> {
    if p.NotList? || exists i :: 0 <= i < |p.values| && !p.values[i].Text? then None
    else if p.values == [] then Some(0)
    else Some(Atoi(p.values[|p.values| - 1].s))
  }

  function AmountOf(kind: CsKind, p: Payload): Option<int> {
    match kind
    case StakePLG => LastPair(p)
    case UnstakePLG => LastPair(p)
    case ReinvestPLG => FirstPair(p)
    case WithdrawInterest => LastPair(p)
    case PostInterest => LastPlain(p)
    case OtherCs => Some(0)
  }

  // ---- Reports ----

  function Find(rows: seq<Row>, id: int): (k: Option<nat>)
    ensures k.Some? ==> k.value < |rows| && rows[k.value].id == id
    ensures k.None? ==> forall i :: 0 <= i < |rows| ==> rows[i].id != id
  {
    if rows == [] then None
    else if rows[|rows| - 1].id == id then Some(|rows| - 1)
    else Find(rows[..|rows| - 1], id)
  }

  /** What a successful report of a kind writes into a row. */
  function Patched(row: Row, kind: CsKind, x: int): Row {
    match kind
    case UnstakePLG => row.(amount := x, movement := -x)
    case ReinvestPLG => row.(amount := x, movement := x)
    case WithdrawInterest => row.(amount := x)
    case PostInterest => row.(amount := x)
    case StakePLG => row
    case OtherCs => row
  }

  function WithStatus(b: Book, id: nat, status: ActivityStatus): Book
    requires id < |b.activities|
  {
    b.(activities := b.activities[id := b.activities[id].(status := status)])
  }

  function OnSuccess(b: Book, r: Report, x: int): Book
    requires r.parent < |b.activities|
  {
    var b1 := WithStatus(b, r.parent, ActivitySuccess);
    var k := Find(b.rows, b.activities[r.parent].row);
    if k.None? then b1 else b1.(rows := b1.rows[k.value := Patched(b1.rows[k.value], r.kind, x)])
  }

  function OnReport(b: Book, r: Report): Book {
    if r.parent >= |b.activities| then b
    else if StatusCode(r.status) > 2 then
      WithStatus(b, r.parent, FailureStatus(r.status, b.activities[r.parent].status))
    else if r.status.Complete? && AmountOf(r.kind, r.events).Some? then
      OnSuccess(b, r, AmountOf(r.kind, r.events).value)
    else b
  }

  function Step(b: Book, m: Move): Book {
    if m.Answered? then OnReport(b, m.report) else OnAsked(b, m)
  }

  function RunFrom(b: Book, moves: seq<Move>): Book {
    if moves == [] then b else Step(RunFrom(b, moves[..|moves| - 1]), moves[|moves| - 1])
  }

  function Run(moves: seq<Move>): Book {
    RunFrom(EMPTY_BOOK, moves)
  }

  // ---- The reported balance ----

  function Balance(rows: seq<Row>, user: int): int {
    if rows == [] then 0
    else Balance(rows[..|rows| - 1], user) + (if rows[|rows| - 1].user == user then rows[|rows| - 1].movement else 0)
  }

  // ---- The table in every run ----

  /** Rows are numbered from one without gaps, and each activity belongs to the row of its number. */
  predicate Numbered(b: Book) {
    && |b.rows| == |b.activities|
    && (forall i :: 0 <= i < |b.rows| ==> b.rows[i].id == i + 1)
    && (forall i :: 0 <= i < |b.rows| ==> b.activities[i].row == i + 1)
    && (forall i :: 0 <= i < |b.rows| ==> b.activities[i].kind == b.rows[i].kind)
  }

  lemma {:induction false} HighestIsLength(rows: seq<Row>)
    requires forall i :: 0 <= i < |rows| ==> rows[i].id == i + 1
    ensures Highest(rows) == |rows|
  {
    if |rows| > 1 { HighestIsLength(rows[..|rows| - 1]); }
  }

  lemma {:induction false} FindsOwnRow(rows: seq<Row>, i: nat)
    requires i < |rows| && forall j :: 0 <= j < |rows| ==> rows[j].id == j + 1
    ensures Find(rows, i + 1) == Some(i)
  {
    if i < |rows| - 1 { FindsOwnRow(rows[..|rows| - 1], i); }
  }

  lemma StepKeepsNumbered(b: Book, m: Move)
    requires Numbered(b)
    ensures Numbered(Step(b, m))
  {
    if !m.Answered? { HighestIsLength(b.rows); }
  }

  lemma {:induction false} RunKeepsNumbered(b: Book, moves: seq<Move>)
    requires Numbered(b)
    ensures Numbered(RunFrom(b, moves))
  {
    if moves != [] {
      RunKeepsNumbered(b, moves[..|moves| - 1]);
      StepKeepsNumbered(RunFrom(b, moves[..|moves| - 1]), moves[|moves| - 1]);
    }
  }
}
