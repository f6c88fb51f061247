/** The transaction queue as a state machine.

    A transaction is a row of the database plus, while it is alive, one message that travels between four
    places: the request that is still submitting it, a push that has not reached the broker, the broker's queue,
    and a delivery held by a queue handler. A handler runs in blocks between two awaits; `Step` executes one such
    block (or one action of the broker, the database or the chain), so every interleaving of handlers is a list
    of moves. Database updates are two moves, the write and the handler's continuation, because other handlers
    can run between them. */
module QueueSpec {
  import opened Transactions

  /** The value of the module-level `eventArray`: the text '[]' or the decoded log entries. */
  datatype Events = NoLogs | Decoded(items: seq<string>)

  /** A receipt: its success flag, whether it has logs, and what decoding those logs yields. */
  datatype Receipt = Receipt(ok: bool, hasLogs: bool, decoded: seq<string>)

  function OwnEvents(r: Receipt): Events {
    if r.hasLogs then Decoded(r.decoded) else NoLogs
  }

  /** The retry counter of a message; the raw path leaves the field out. */
  datatype Retries = Absent | Tries(n: nat)

  /** A queue message: a transaction, or text that does not parse. */
  datatype Message =
    | Garbled
    | Tx(uuid: nat, status: TxStatus, retries: Retries, deploy: bool, callback: Option<string>, project: nat)

  /** A row of the transactions table. */
  datatype Row = Row(status: TxStatus, retries: Retries, deploy: bool, callback: Option<string>, project: nat,
                     events: Option<Events>, address: Option<Events>)

  /** The database updates a handler makes. */
  datatype Write =
    | ToPending
    | ToRetry(tries: nat)
    | ToFailed(status: TxStatus)
    | ToComplete(events: Events)
    | ToAddress(address: Events)
    | ToProject(address: Events)

  /** Where a handler is suspended. */
  datatype Point =
    | FetchingWallet
    | FetchingBalance
    | RecheckingBalance
    | Withheld
    | Broadcasting
    | DecodingFirst(receipt: Receipt)
    | Waiting
    | FetchingFlag
    | FetchingReceipt
    | DecodingFinal(receipt: Receipt)
    | Writing(write: Write)
    | Wrote(write: Write)
    | Posting

  datatype Place = Submitting | Pushing | Queued | Delivered(point: Point)

  datatype Copy = Copy(msg: Message, place: Place)

  /** Names of copies: numbered pushes, and the pushes of the restart routine. */
  datatype CopyId = Pushed(n: nat) | Rebuilt(uuid: nat)

  datatype Config = Config(critical: real, warning: real, blockTime: nat, confirmations: nat, dev: bool)

  datatype GasEvent = Reading(balance: real) | GasError

  datatype Broadcast = Broadcast(uuid: nat, balance: real)

  datatype Wait = Wait(uuid: nat, millis: nat)

  datatype Post = Post(uuid: nat, url: Option<string>, status: TxStatus, events: Option<Events>)

  /** What an observer has seen so far; no step reads it. */
  datatype History = History(
    submitted: map<nat, Retries>,
    restarts: nat,
    gas: seq<GasEvent>,
    broadcasts: seq<Broadcast>,
    waits: seq<Wait>,
    posts: seq<Post>,
    fetched: map<nat, Receipt>,
    writer: Option<CopyId>)

  datatype State = State(
    rows: map<nat, Row>,
    copies: map<CopyId, Copy>,
    nextPush: nat,
    projects: map<nat, Events>,
    gasOk: bool,
    eventArray: Events,
    history: History)

  const INITIAL_HISTORY := History(map[], 0, [], [], [], [], map[], None)

  const INITIAL_STATE := State(map[], map[], 0, map[], true, NoLogs, INITIAL_HISTORY)

  /** Everything that can happen next. */
  datatype Move =
    | Submit(msg: Message)
    | FinishSubmit(id: CopyId)
    | HealthCheck
    | Accept(id: CopyId)
    | Deliver(id: CopyId)
    | GotWallet(id: CopyId)
    | GotBalance(id: CopyId, reading: real)
    | GotRecheck(id: CopyId, reading: real)
    | GotReceipt(id: CopyId, receipt: Receipt)
    | GotError(id: CopyId, gasShort: bool)
    | GotDecoded(id: CopyId)
    | TimerFired(id: CopyId)
    | GotFlag(id: CopyId, confirmed: bool)
    | GotFinalReceipt(id: CopyId, receipt: Receipt)
    | Applied(id: CopyId)
    | Resumed(id: CopyId)
    | Answered(id: CopyId)
    | Restart

  // ---- Basic updates ----

  predicate At(s: State, id: CopyId, point: Point) {
    id in s.copies && s.copies[id].place == Delivered(point)
  }

  predicate TxAt(s: State, id: CopyId, point: Point) {
    At(s, id, point) && s.copies[id].msg.Tx?
  }

  function MoveTo(s: State, id: CopyId, place: Place): State
    requires id in s.copies
  {
    s.(copies := s.copies[id := s.copies[id].(place := place)])
  }

  function Goto(s: State, id: CopyId, point: Point): State
    requires id in s.copies
  {
    MoveTo(s, id, Delivered(point))
  }

  /** Acknowledging a delivery removes it. */
  function Ack(s: State, id: CopyId): State {
    s.(copies := s.copies - {id})
  }

  /** Acknowledge one delivery and start pushing its successor, in one uninterrupted block. */
  function Requeue(s: State, id: CopyId, msg: Message): State {
    s.(copies := (s.copies - {id})[Pushed(s.nextPush) := Copy(msg, Pushing)], nextPush := s.nextPush + 1)
  }

  /** The gas latch after one reading. */
  function Latch(c: Config, gasOk: bool, reading: real): bool {
    if reading <= c.critical then false
    else if reading >= c.warning then true
    else gasOk
  }

  function Observe(c: Config, s: State, reading: real): State {
    s.(gasOk := Latch(c, s.gasOk, reading), history := s.history.(gas := s.history.gas + [Reading(reading)]))
  }

  /** A handler assigns the shared variable. */
  function Assign(s: State, id: CopyId, events: Events): State {
    s.(eventArray := events, history := s.history.(writer := Some(id)))
  }

  function WaitMillis(c: Config, r: Retries): nat {
    match r
    case Tries(n) => c.blockTime * (n + 1)
    case Absent => 1
  }

  function NewRow(msg: Message): Row
    requires msg.Tx?
  {
    Row(msg.status, msg.retries, msg.deploy, msg.callback, msg.project, None, None)
  }

  /** The message the restart routine rebuilds; a missing retry column reads as zero. */
  function RowMessage(uuid: nat, row: Row): Message {
    Tx(uuid, row.status, Tries(if row.retries.Tries? then row.retries.n else 0), row.deploy, row.callback, row.project)
  }

  function WriteRow(row: Row, w: Write): Row {
    match w
    case ToPending => row.(status := Pending)
    case ToRetry(n) => row.(retries := Tries(n))
    case ToFailed(status) => row.(status := status)
    case ToComplete(events) => row.(status := Complete, events := Some(events))
    case ToAddress(address) => row.(address := Some(address))
    case ToProject(_) => row
  }

  /** Whether a finished transaction is reported: always with a callback, and after a broadcast error even without. */
  predicate Reports(callback: Option<string>, status: TxStatus) {
    callback.Some? || status.FailedInitial?
  }

  // ---- The blocks ----

  function DoSubmit(s: State, msg: Message): State
    requires msg.Tx?
  {
    s.(rows := s.rows[msg.uuid := NewRow(msg)],
       copies := s.copies[Pushed(s.nextPush) := Copy(msg, Submitting)],
       nextPush := s.nextPush + 1,
       history := s.history.(submitted := s.history.submitted[msg.uuid := msg.retries]))
  }

  function DoHealthCheck(s: State): State {
    s.(copies := s.copies[Pushed(s.nextPush) := Copy(Garbled, Pushing)], nextPush := s.nextPush + 1)
  }

  /** After the first balance reading: parse, then dispatch on the message's status. */
  function OnBalance(c: Config, s: State, id: CopyId, reading: real): State
    requires id in s.copies
  {
    var s1 := Observe(c, s, reading);
    match s.copies[id].msg
    case Garbled => Ack(s1, id)
    case Tx(u, status, retries, _, _, _) =>
      if status.Initial? then Goto(s1, id, RecheckingBalance)
      else if status.Pending? then
        Goto(s1, id, Waiting).(history := s1.history.(waits := s1.history.waits + [Wait(u, WaitMillis(c, retries))]))
      else Ack(s1, id)
  }

  /** After the second reading: broadcast, or leave the delivery unacknowledged. */
  function OnRecheck(c: Config, s: State, id: CopyId, reading: real): State
    requires id in s.copies && s.copies[id].msg.Tx?
  {
    var s1 := Observe(c, s, reading);
    if s1.gasOk then
      Goto(s1, id, Broadcasting).(history :=
        s1.history.(broadcasts := s1.history.broadcasts + [Broadcast(s.copies[id].msg.uuid, reading)]))
    else Goto(s1, id, Withheld)
  }

  function FirstWrite(r: Receipt): Write {
    if r.ok then ToPending else ToFailed(FailedReceipt)
  }

  function OnReceipt(s: State, id: CopyId, r: Receipt): State
    requires id in s.copies
  {
    if r.hasLogs then Goto(s, id, DecodingFirst(r))
    else Goto(Assign(s, id, NoLogs), id, Writing(FirstWrite(r)))
  }

  function OnError(s: State, id: CopyId, gasShort: bool): State
    requires id in s.copies
  {
    var s1 := if gasShort then s.(gasOk := false, history := s.history.(gas := s.history.gas + [GasError])) else s;
    Goto(s1, id, Writing(ToFailed(FailedInitial)))
  }

  function OnDecoded(s: State, id: CopyId): State
    requires id in s.copies
  {
    match s.copies[id].place
    case Delivered(DecodingFirst(r)) => Goto(Assign(s, id, Decoded(r.decoded)), id, Writing(FirstWrite(r)))
    case Delivered(DecodingFinal(r)) =>
      Goto(Assign(s, id, Decoded(r.decoded)), id, Writing(ToComplete(Decoded(r.decoded))))
    case _ => s
  }

  /** What a pending handler does once it knows whether the chain has confirmed the transaction. */
  function Verdict(c: Config, retries: Retries, confirmed: bool): Point {
    var below := retries.Tries? && retries.n < c.confirmations;
    var reached := retries.Tries? && retries.n >= c.confirmations;
    if confirmed && (c.dev || below) then FetchingReceipt
    else if !confirmed && below then Writing(ToRetry(retries.n + 1))
    else if reached then Writing(ToFailed(FailedTimeout))
    else Writing(ToFailed(FailedPending))
  }

  function OnFinalReceipt(s: State, id: CopyId, r: Receipt): State
    requires id in s.copies && s.copies[id].msg.Tx?
  {
    var s1 := s.(history := s.history.(fetched := s.history.fetched[s.copies[id].msg.uuid := r]));
    if r.hasLogs then Goto(s1, id, DecodingFinal(r))
    else Goto(Assign(s1, id, NoLogs), id, Writing(ToComplete(NoLogs)))
  }

  /** The database carries out the update a handler asked for. */
  function OnApplied(s: State, id: CopyId, w: Write): State
    requires id in s.copies && s.copies[id].msg.Tx?
  {
    var m := s.copies[id].msg;
    var s1 := if m.uuid in s.rows then s.(rows := s.rows[m.uuid := WriteRow(s.rows[m.uuid], w)]) else s;
    var s2 := if w.ToProject? then s1.(projects := s1.projects[m.project := w.address]) else s1;
    Goto(s2, id, Wrote(w))
  }

  /** Report a finished transaction if it is to be reported, else acknowledge at once. */
  function Report(s: State, id: CopyId, status: TxStatus, events: Option<Events>): State
    requires id in s.copies && s.copies[id].msg.Tx?
  {
    var m := s.copies[id].msg.(status := status);
    if Reports(m.callback, status) then
      s.(copies := s.copies[id := Copy(m, Delivered(Posting))],
         history := s.history.(posts := s.history.posts + [Post(m.uuid, m.callback, status, events)]))
    else Ack(s, id)
  }

  /** The handler continues after its update. */
  function OnResumed(s: State, id: CopyId, w: Write): State
    requires id in s.copies && s.copies[id].msg.Tx?
  {
    var m := s.copies[id].msg;
    match w
    case ToPending => Requeue(s, id, m.(status := Pending))
    case ToRetry(n) => Requeue(s, id, m.(retries := Tries(n)))
    case ToFailed(status) => Report(s, id, status, None)
    case ToComplete(_) =>
      if m.deploy then Goto(s, id, Writing(ToAddress(s.eventArray)))
      else Report(s, id, Complete, Some(s.eventArray))
    case ToAddress(_) => Goto(s, id, Writing(ToProject(s.eventArray)))
    case ToProject(_) => Report(s, id, Complete, Some(s.eventArray))
  }

  /** Purge the queue and push one message for every row in a status the restart routine selects. */
  function Rebuild(rows: map<nat, Row>): map<CopyId, Copy> {
    map u | u in rows && Reloaded(rows[u].status) :: Rebuilt(u) := Copy(RowMessage(u, rows[u]), Pushing)
  }

  function OnRestart(s: State): State {
    s.(copies := Rebuild(s.rows), gasOk := true, eventArray := NoLogs,
       history := s.history.(restarts := s.history.restarts + 1, gas := [], writer := None))
  }

  /** One atomic step; a move that is not possible in `s` changes nothing. */
  function Step(c: Config, s: State, move: Move): State {
    match move
    case Submit(m) => if m.Tx? && m.status.Initial? && m.uuid !in s.rows then DoSubmit(s, m) else s
    case FinishSubmit(id) => if id in s.copies && s.copies[id].place.Submitting? then MoveTo(s, id, Pushing) else s
    case HealthCheck => DoHealthCheck(s)
    case Accept(id) => if id in s.copies && s.copies[id].place.Pushing? then MoveTo(s, id, Queued) else s
    case Deliver(id) => if id in s.copies && s.copies[id].place.Queued? then Goto(s, id, FetchingWallet) else s
    case GotWallet(id) => if At(s, id, FetchingWallet) then Goto(s, id, FetchingBalance) else s
    case GotBalance(id, reading) => if At(s, id, FetchingBalance) then OnBalance(c, s, id, reading) else s
    case GotRecheck(id, reading) => if TxAt(s, id, RecheckingBalance) then OnRecheck(c, s, id, reading) else s
    case GotReceipt(id, r) => if TxAt(s, id, Broadcasting) then OnReceipt(s, id, r) else s
    case GotError(id, gasShort) => if TxAt(s, id, Broadcasting) then OnError(s, id, gasShort) else s
    case GotDecoded(id) => if id in s.copies && s.copies[id].msg.Tx? then OnDecoded(s, id) else s
    case TimerFired(id) => if TxAt(s, id, Waiting) then Goto(s, id, FetchingFlag) else s
    case GotFlag(id, confirmed) =>
      if TxAt(s, id, FetchingFlag) then Goto(s, id, Verdict(c, s.copies[id].msg.retries, confirmed)) else s
    case GotFinalReceipt(id, r) => if TxAt(s, id, FetchingReceipt) then OnFinalReceipt(s, id, r) else s
    case Applied(id) =>
      if id in s.copies && s.copies[id].msg.Tx? && s.copies[id].place.Delivered? && s.copies[id].place.point.Writing?
      then OnApplied(s, id, s.copies[id].place.point.write) else s
    case Resumed(id) =>
      if id in s.copies && s.copies[id].msg.Tx? && s.copies[id].place.Delivered? && s.copies[id].place.point.Wrote?
      then OnResumed(s, id, s.copies[id].place.point.write) else s
    case Answered(id) => if TxAt(s, id, Posting) then Ack(s, id) else s
    case Restart => OnRestart(s)
  }

  /** A whole run. */
  function Run(c: Config, s: State, moves: seq<Move>): State
    decreases |moves|
  {
    if moves == [] then s else Run(c, Step(c, s, moves[0]), moves[1..])
  }

  ghost predicate CrashFree(moves: seq<Move>) {
    forall i :: 0 <= i < |moves| ==> !moves[i].Restart?
  }
}
