/** One transaction seen on its own.

    `ViewOf` projects a state of the whole queue to everything that concerns one transaction, and `Simulates`
    shows that each step of the queue, by whichever handler, is a step of the small automaton `LocalStep` on that
    view. Whole-run claims about one transaction are then proved on the automaton, with no quantifiers. */
module QueueLocal {
  import opened Transactions
  import opened QueueSpec
  import opened QueueSafety

  /** The entries of a log that carry one key, oldest first. */
  function Only<T>(log: seq<T>, key: T -> nat, u: nat): seq<T> {
    if log == [] then []
    else Only(log[..|log| - 1], key, u) + (if key(log[|log| - 1]) == u then [log[|log| - 1]] else [])
  }

  lemma OnlySnoc<T>(log: seq<T>, entry: T, key: T -> nat, u: nat)
    ensures Only(log + [entry], key, u) == Only(log, key, u) + (if key(entry) == u then [entry] else [])
  {
    assert (log + [entry])[..|log|] == log;
  }

  function PostsFor(s: State, u: nat): seq<Post> {
    Only(s.history.posts, (p: Post) => p.uuid, u)
  }

  function WaitsFor(s: State, u: nat): seq<Wait> {
    Only(s.history.waits, (w: Wait) => w.uuid, u)
  }

  function BroadcastsFor(s: State, u: nat): seq<Broadcast> {
    Only(s.history.broadcasts, (b: Broadcast) => b.uuid, u)
  }

  datatype View = View(
    row: Option<Row>,
    copy: Option<Copy>,
    submitted: Option<Retries>,
    fetched: Option<Receipt>,
    posts: seq<Post>,
    waits: seq<Wait>,
    broadcasts: seq<Broadcast>,
    restarts: nat)

  function Lookup<V>(m: map<nat, V>, u: nat): Option<V> {
    if u in m then Some(m[u]) else None
  }

  ghost function CopyOf(s: State, u: nat): Option<Copy> {
    if exists id :: Holds(s, id, u) then
      var id :| Holds(s, id, u);
      Some(s.copies[id])
    else None
  }

  ghost function ViewOf(s: State, u: nat): View {
    View(Lookup(s.rows, u), CopyOf(s, u), Lookup(s.history.submitted, u), Lookup(s.history.fetched, u),
         PostsFor(s, u), WaitsFor(s, u), BroadcastsFor(s, u), s.history.restarts)
  }

  lemma CopyIs(s: State, id: CopyId, u: nat)
    requires Unique(s) && Holds(s, id, u)
    ensures CopyOf(s, u) == Some(s.copies[id])
  {
  }

  // ---- The automaton ----

  datatype LocalMove =
    | Stay
    | Begin(msg: Message)
    | Shift(place: Place)
    | Drop
    | Arm(millis: nat)
    | Launch(balance: real)
    | Fetch(receipt: Receipt)
    | Commit(write: Write)
    | Repush(msg: Message)
    | Close(status: TxStatus, events: Option<Events>)
    | Reload

  /** The changes of place that leave no trace in the row or the logs. */
  ghost predicate ShiftOk(c: Config, copy: Copy, place: Place)
    requires copy.msg.Tx?
  {
    match copy.place
    case Submitting => place.Pushing?
    case Pushing => place.Queued?
    case Queued => place == Delivered(FetchingWallet)
    case Delivered(point) => place.Delivered? && PointShiftOk(c, copy.msg, point, place.point)
  }

  ghost predicate PointShiftOk(c: Config, msg: Message, point: Point, point': Point)
    requires msg.Tx?
  {
    || (point.FetchingWallet? && point'.FetchingBalance?)
    || (point.FetchingBalance? && msg.status.Initial? && point'.RecheckingBalance?)
    || (point.RecheckingBalance? && point'.Withheld?)
    || (point.Broadcasting? && point'.DecodingFirst?)
    || (point.Broadcasting?
        && point' in {Writing(ToPending), Writing(ToFailed(FailedReceipt)), Writing(ToFailed(FailedInitial))})
    || (point.DecodingFirst? && point' == Writing(FirstWrite(point.receipt)))
    || (point.Waiting? && point'.FetchingFlag?)
    || (point.FetchingFlag? && point' in {Verdict(c, msg.retries, true), Verdict(c, msg.retries, false)})
    || (point.DecodingFinal? && point' == Writing(ToComplete(Decoded(point.receipt.decoded))))
    || (point.Wrote? && point.write.ToComplete? && msg.deploy && point'.Writing? && point'.write.ToAddress?)
    || (point.Wrote? && point.write.ToAddress? && point'.Writing? && point'.write.ToProject?)
  }

  /** The transaction exists and one of its copies is about to act. */
  predicate Active(v: View) {
    v.row.Some? && v.copy.Some? && v.copy.value.msg.Tx?
  }

  predicate StandsAt(v: View, point: Point) {
    Active(v) && v.copy.value.place == Delivered(point)
  }

  predicate HasWritten(v: View) {
    Active(v) && v.copy.value.place.Delivered? && v.copy.value.place.point.Wrote?
  }

  predicate RepushOk(v: View, m: Message) {
    && HasWritten(v)
    && var w := v.copy.value.place.point.write;
    if w.ToPending? then m == v.copy.value.msg.(status := Pending)
    else w.ToRetry? && m == v.copy.value.msg.(retries := Tries(w.tries))
  }

  predicate CloseOk(v: View, status: TxStatus) {
    && HasWritten(v)
    && var w := v.copy.value.place.point.write;
    if w.ToFailed? then status == w.status
    else status.Complete? && ((w.ToComplete? && !v.copy.value.msg.deploy) || w.ToProject?)
  }

  ghost predicate Allowed(c: Config, v: View, lm: LocalMove) {
    match lm
    case Stay => true
    case Begin(m) => v.row.None? && v.copy.None? && m.Tx? && m.status.Initial?
    case Shift(place) => Active(v) && ShiftOk(c, v.copy.value, place)
    case Drop => StandsAt(v, Posting) || (StandsAt(v, FetchingBalance) && !Live(v.copy.value.msg.status))
    case Arm(millis) =>
      StandsAt(v, FetchingBalance) && v.copy.value.msg.status.Pending?
      && millis == WaitMillis(c, v.copy.value.msg.retries)
    case Launch(_) => StandsAt(v, RecheckingBalance)
    case Fetch(_) => StandsAt(v, FetchingReceipt)
    case Commit(w) => StandsAt(v, Writing(w))
    case Repush(m) => RepushOk(v, m)
    case Close(status, events) => CloseOk(v, status) && (events.Some? <==> status.Complete?)
    case Reload => true
  }

  function LocalStep(c: Config, u: nat, v: View, lm: LocalMove): View
    requires Allowed(c, v, lm)
  {
    match lm
    case Stay => v
    case Begin(m) => v.(row := Some(NewRow(m)), copy := Some(Copy(m, Submitting)), submitted := Some(m.retries))
    case Shift(place) => v.(copy := Some(v.copy.value.(place := place)))
    case Drop => v.(copy := None)
    case Arm(millis) =>
      v.(copy := Some(v.copy.value.(place := Delivered(Waiting))), waits := v.waits + [Wait(u, millis)])
    case Launch(balance) =>
      v.(copy := Some(v.copy.value.(place := Delivered(Broadcasting))),
         broadcasts := v.broadcasts + [Broadcast(u, balance)])
    case Fetch(r) =>
      v.(copy := Some(v.copy.value.(place := Delivered(
           if r.hasLogs then DecodingFinal(r) else Writing(ToComplete(NoLogs))))),
         fetched := Some(r))
    case Commit(w) =>
      v.(row := Some(WriteRow(v.row.value, w)), copy := Some(v.copy.value.(place := Delivered(Wrote(w)))))
    case Repush(m) => v.(copy := Some(Copy(m, Pushing)))
    case Close(status, events) =>
      var m := v.copy.value.msg.(status := status);
      if Reports(m.callback, status) then
        v.(copy := Some(Copy(m, Delivered(Posting))), posts := v.posts + [Post(u, m.callback, status, events)])
      else v.(copy := None)
    case Reload =>
      v.(copy := if v.row.Some? && Reloaded(v.row.value.status)
                 then Some(Copy(RowMessage(u, v.row.value), Pushing)) else None,
         restarts := v.restarts + 1)
  }

  // ---- The simulation ----

  /** The copy whose handler, push or delivery a move is about. */
  function Mover(move: Move): Option<CopyId> {
    match move
    case Submit(_) => None
    case FinishSubmit(id) => Some(id)
    case HealthCheck => None
    case Accept(id) => Some(id)
    case Deliver(id) => Some(id)
    case GotWallet(id) => Some(id)
    case GotBalance(id, _) => Some(id)
    case GotRecheck(id, _) => Some(id)
    case GotReceipt(id, _) => Some(id)
    case GotError(id, _) => Some(id)
    case GotDecoded(id) => Some(id)
    case TimerFired(id) => Some(id)
    case GotFlag(id, _) => Some(id)
    case GotFinalReceipt(id, _) => Some(id)
    case Applied(id) => Some(id)
    case Resumed(id) => Some(id)
    case Answered(id) => Some(id)
    case Restart => None
  }

  /** The transaction a move is about. */
  function Subject(s: State, move: Move): Option<nat> {
    if move.Submit? && move.msg.Tx? then Some(move.msg.uuid)
    else
      var id := Mover(move);
      if id.Some? && id.value in s.copies && s.copies[id.value].msg.Tx?
      then Some(s.copies[id.value].msg.uuid) else None
  }

  lemma FrameView(s: State, s': State, u: nat)
    requires Unique(s) && Unique(s')
    requires forall id :: Holds(s, id, u) <==> Holds(s', id, u)
    requires forall id :: Holds(s, id, u) && Holds(s', id, u) ==> s.copies[id] == s'.copies[id]
    ensures CopyOf(s, u) == CopyOf(s', u)
  {
    if id :| Holds(s, id, u) {
      CopyIs(s, id, u);
      CopyIs(s', id, u);
    }
  }

  lemma LogSnocs(s: State, u: nat, p: Post, w: Wait, b: Broadcast)
    ensures Only(s.history.posts + [p], (p: Post) => p.uuid, u) == PostsFor(s, u) + (if p.uuid == u then [p] else [])
    ensures Only(s.history.waits + [w], (w: Wait) => w.uuid, u) == WaitsFor(s, u) + (if w.uuid == u then [w] else [])
    ensures Only(s.history.broadcasts + [b], (b: Broadcast) => b.uuid, u)
            == BroadcastsFor(s, u) + (if b.uuid == u then [b] else [])
  {
    OnlySnoc(s.history.posts, p, (p: Post) => p.uuid, u);
    OnlySnoc(s.history.waits, w, (w: Wait) => w.uuid, u);
    OnlySnoc(s.history.broadcasts, b, (b: Broadcast) => b.uuid, u);
  }

  lemma NoCopy(s: State, u: nat)
    requires forall id :: !Holds(s, id, u)
    ensures CopyOf(s, u) == None
  {
  }

  /** What a step that keeps the mover's copy does to all views. */
  lemma KeptCopy(s: State, s': State, id: CopyId, u: nat)
    requires Inv(s) && Inv(s') && id in s.copies && id in s'.copies && s.copies[id].msg.Tx? && s'.copies[id].msg.Tx?
    requires s'.copies == s.copies[id := s'.copies[id]] && s'.copies[id].msg.uuid == s.copies[id].msg.uuid
    ensures CopyOf(s', u) == if u == s.copies[id].msg.uuid then Some(s'.copies[id]) else CopyOf(s, u)
    ensures u == s.copies[id].msg.uuid ==> CopyOf(s, u) == Some(s.copies[id])
  {
    if u == s.copies[id].msg.uuid {
      CopyIs(s, id, u);
      CopyIs(s', id, u);
    } else {
      FrameView(s, s', u);
    }
  }

  /** What a step that removes the mover's copy does to all views. */
  lemma LostCopy(s: State, s': State, id: CopyId, u: nat)
    requires Inv(s) && Inv(s') && id in s.copies && s'.copies == s.copies - {id}
    ensures CopyOf(s', u) == if s.copies[id].msg.Tx? && u == s.copies[id].msg.uuid then None else CopyOf(s, u)
    ensures s.copies[id].msg.Tx? && u == s.copies[id].msg.uuid ==> CopyOf(s, u) == Some(s.copies[id])
  {
    if s.copies[id].msg.Tx? && u == s.copies[id].msg.uuid {
      CopyIs(s, id, u);
      assert Holds(s, id, u);
      NoCopy(s', u);
    } else {
      FrameView(s, s', u);
    }
  }

  /** What acknowledging and pushing on does to all views. */
  lemma MovedCopy(s: State, id: CopyId, msg: Message, u: nat)
    requires Inv(s) && id in s.copies && s.copies[id].msg.Tx? && msg.Tx? && msg.uuid == s.copies[id].msg.uuid
    requires Inv(Requeue(s, id, msg))
    ensures CopyOf(Requeue(s, id, msg), u) == if u == msg.uuid then Some(Copy(msg, Pushing)) else CopyOf(s, u)
    ensures u == msg.uuid ==> CopyOf(s, u) == Some(s.copies[id])
  {
    var s' := Requeue(s, id, msg);
    if u == msg.uuid {
      CopyIs(s, id, u);
      CopyIs(s', Pushed(s.nextPush), u);
    } else {
      FrameView(s, s', u);
    }
  }

  /** The move `lm` on the subject of a step, nothing for everyone else. */
  ghost predicate Mirrors(c: Config, s: State, s': State, subject: nat, lm: LocalMove, u: nat) {
    if u == subject then Allowed(c, ViewOf(s, u), lm) && ViewOf(s', u) == LocalStep(c, u, ViewOf(s, u), lm)
    else ViewOf(s', u) == ViewOf(s, u)
  }

  lemma MirrorSubmit(c: Config, s: State, m: Message, u: nat)
    requires Inv(s) && m.Tx? && m.status.Initial? && m.uuid !in s.rows
    ensures Mirrors(c, s, DoSubmit(s, m), m.uuid, Begin(m), u)
  {
    var s' := DoSubmit(s, m);
    KeepAtSubmit(s, m);
    if u == m.uuid {
      NoCopy(s, u);
      CopyIs(s', Pushed(s.nextPush), u);
    } else {
      FrameView(s, s', u);
    }
  }

  predicate Shifting(move: Move) {
    move.FinishSubmit? || move.Accept? || move.Deliver? || move.GotWallet? || move.GotReceipt? || move.GotError?
    || move.GotDecoded? || move.TimerFired? || move.GotFlag?
  }

  lemma ShiftFits(c: Config, s: State, move: Move)
    requires Shifting(move) && Step(c, s, move) != s && Subject(s, move).Some?
    ensures var s' := Step(c, s, move);
            var id := Mover(move).value;
            && s'.rows == s.rows && id in s'.copies
            && s'.copies == s.copies[id := s.copies[id].(place := s'.copies[id].place)]
            && ShiftOk(c, s.copies[id], s'.copies[id].place)
            && s'.history.(gas := s.history.gas, writer := s.history.writer) == s.history
  {
  }

  lemma MirrorShift(c: Config, s: State, move: Move, u: nat)
    requires Inv(s) && Shifting(move) && Step(c, s, move) != s && Subject(s, move).Some?
    ensures Mover(move).value in Step(c, s, move).copies
    ensures Mirrors(c, s, Step(c, s, move), Subject(s, move).value,
                    Shift(Step(c, s, move).copies[Mover(move).value].place), u)
  {
    var s' := Step(c, s, move);
    StepKeepsInv(c, s, move);
    ShiftFits(c, s, move);
    KeptCopy(s, s', Mover(move).value, u);
  }

  function DispatchMove(c: Config, m: Message): LocalMove
    requires m.Tx?
  {
    if m.status.Initial? then Shift(Delivered(RecheckingBalance))
    else if m.status.Pending? then Arm(WaitMillis(c, m.retries))
    else Drop
  }

  lemma MirrorDispatch(c: Config, s: State, id: CopyId, reading: real, u: nat)
    requires Inv(s) && TxAt(s, id, FetchingBalance)
    ensures Mirrors(c, s, OnBalance(c, s, id, reading), s.copies[id].msg.uuid, DispatchMove(c, s.copies[id].msg), u)
  {
    var m := s.copies[id].msg;
    var s' := OnBalance(c, s, id, reading);
    KeepAtDispatch(c, s, id, reading);
    LogSnocs(s, u, Post(m.uuid, None, Initial, None), Wait(m.uuid, WaitMillis(c, m.retries)), Broadcast(0, 0.0));
    if Live(m.status) {
      KeptCopy(s, s', id, u);
    } else {
      LostCopy(s, s', id, u);
    }
  }

  /** A delivery whose text does not parse touches no transaction. */
  lemma MirrorGarbled(c: Config, s: State, id: CopyId, reading: real, u: nat)
    requires Inv(s) && At(s, id, FetchingBalance) && s.copies[id].msg.Garbled?
    ensures ViewOf(OnBalance(c, s, id, reading), u) == ViewOf(s, u)
  {
    KeepAtDispatch(c, s, id, reading);
    LostCopy(s, OnBalance(c, s, id, reading), id, u);
  }

  function RecheckMove(c: Config, s: State, reading: real): LocalMove {
    if Latch(c, s.gasOk, reading) then Launch(reading) else Shift(Delivered(Withheld))
  }

  lemma MirrorRecheck(c: Config, s: State, id: CopyId, reading: real, u: nat)
    requires Inv(s) && TxAt(s, id, RecheckingBalance)
    ensures Mirrors(c, s, OnRecheck(c, s, id, reading), s.copies[id].msg.uuid, RecheckMove(c, s, reading), u)
  {
    var m := s.copies[id].msg;
    KeepAtRecheck(c, s, id, reading);
    LogSnocs(s, u, Post(0, None, Initial, None), Wait(0, 0), Broadcast(m.uuid, reading));
    KeptCopy(s, OnRecheck(c, s, id, reading), id, u);
  }

  lemma MirrorFetch(c: Config, s: State, id: CopyId, r: Receipt, u: nat)
    requires Inv(s) && TxAt(s, id, FetchingReceipt)
    ensures Mirrors(c, s, OnFinalReceipt(s, id, r), s.copies[id].msg.uuid, Fetch(r), u)
  {
    KeepAtFetch(s, id, r);
    KeptCopy(s, OnFinalReceipt(s, id, r), id, u);
  }

  lemma MirrorCommit(c: Config, s: State, id: CopyId, w: Write, u: nat)
    requires Inv(s) && TxAt(s, id, Writing(w))
    ensures Mirrors(c, s, OnApplied(s, id, w), s.copies[id].msg.uuid, Commit(w), u)
  {
    KeepAtWrite(s, id, w);
    KeptCopy(s, OnApplied(s, id, w), id, u);
  }

  lemma PostsSnoc(s: State, s': State, p: Post, u: nat)
    requires s'.history.posts == s.history.posts + [p]
    ensures PostsFor(s', u) == if p.uuid == u then PostsFor(s, u) + [p] else PostsFor(s, u)
  {
    OnlySnoc(s.history.posts, p, (p: Post) => p.uuid, u);
  }

  lemma ViewAfterPost(s: State, id: CopyId, status: TxStatus, events: Option<Events>, u: nat)
    requires Inv(s) && id in s.copies && s.copies[id].msg.Tx? && Inv(Report(s, id, status, events))
    requires Reports(s.copies[id].msg.callback, status)
    ensures var m := s.copies[id].msg;
            var s' := Report(s, id, status, events);
            if u == m.uuid
            then CopyOf(s, u) == Some(s.copies[id])
                 && ViewOf(s', u) == ViewOf(s, u).(
                      copy := Some(Copy(m.(status := status), Delivered(Posting))),
                      posts := PostsFor(s, u) + [Post(u, m.callback, status, events)])
            else ViewOf(s', u) == ViewOf(s, u)
  {
    var m := s.copies[id].msg;
    var s' := Report(s, id, status, events);
    PostsSnoc(s, s', Post(m.uuid, m.callback, status, events), u);
    KeptCopy(s, s', id, u);
  }

  lemma ViewAfterAck(s: State, id: CopyId, u: nat)
    requires Inv(s) && id in s.copies && s.copies[id].msg.Tx? && Inv(Ack(s, id))
    ensures if u == s.copies[id].msg.uuid
            then CopyOf(s, u) == Some(s.copies[id]) && ViewOf(Ack(s, id), u) == ViewOf(s, u).(copy := None)
            else ViewOf(Ack(s, id), u) == ViewOf(s, u)
  {
    LostCopy(s, Ack(s, id), id, u);
  }

  lemma MirrorReport(c: Config, s: State, id: CopyId, status: TxStatus, events: Option<Events>, u: nat)
    requires Inv(s) && id in s.copies && s.copies[id].msg.Tx? && Inv(Report(s, id, status, events))
    requires s.copies[id].place.Delivered? && s.copies[id].place.point.Wrote?
    requires CloseOk(ViewOf(s, s.copies[id].msg.uuid), status) && (events.Some? <==> status.Complete?)
    ensures Mirrors(c, s, Report(s, id, status, events), s.copies[id].msg.uuid, Close(status, events), u)
  {
    var m := s.copies[id].msg;
    var v, v' := ViewOf(s, u), ViewOf(Report(s, id, status, events), u);
    if Reports(m.callback, status) {
      ViewAfterPost(s, id, status, events, u);
    } else {
      ViewAfterAck(s, id, u);
    }
    if u == m.uuid {
      assert v.copy == Some(s.copies[id]) && v.posts == PostsFor(s, u);
      assert v' == LocalStep(c, u, v, Close(status, events));
    }
  }

  function ResumeMove(s: State, m: Message, w: Write): LocalMove
    requires m.Tx?
  {
    match w
    case ToPending => Repush(m.(status := Pending))
    case ToRetry(n) => Repush(m.(retries := Tries(n)))
    case ToFailed(status) => Close(status, None)
    case ToComplete(_) =>
      if m.deploy then Shift(Delivered(Writing(ToAddress(s.eventArray)))) else Close(Complete, Some(s.eventArray))
    case ToAddress(_) => Shift(Delivered(Writing(ToProject(s.eventArray))))
    case ToProject(_) => Close(Complete, Some(s.eventArray))
  }

  lemma MirrorResume(c: Config, s: State, id: CopyId, w: Write, u: nat)
    requires Inv(s) && TxAt(s, id, Wrote(w))
    ensures Mirrors(c, s, OnResumed(s, id, w), s.copies[id].msg.uuid, ResumeMove(s, s.copies[id].msg, w), u)
  {
    var m := s.copies[id].msg;
    var s' := OnResumed(s, id, w);
    KeepAtResume(s, id, w);
    CopyIs(s, id, m.uuid);
    match w
    case ToPending => MovedCopy(s, id, m.(status := Pending), u);
    case ToRetry(n) => MovedCopy(s, id, m.(retries := Tries(n)), u);
    case ToFailed(status) => MirrorReport(c, s, id, status, None, u);
    case ToComplete(_) =>
      if m.deploy { KeptCopy(s, s', id, u); } else { MirrorReport(c, s, id, Complete, Some(s.eventArray), u); }
    case ToAddress(_) => KeptCopy(s, s', id, u);
    case ToProject(_) => MirrorReport(c, s, id, Complete, Some(s.eventArray), u);
  }

  lemma MirrorAnswer(c: Config, s: State, id: CopyId, u: nat)
    requires Inv(s) && TxAt(s, id, Posting)
    ensures Mirrors(c, s, Ack(s, id), s.copies[id].msg.uuid, Drop, u)
  {
    StepKeepsInv(c, s, Answered(id));
    ViewAfterAck(s, id, u);
  }

  lemma MirrorRestart(c: Config, s: State, u: nat)
    ensures ViewOf(OnRestart(s), u) == LocalStep(c, u, ViewOf(s, u), Reload)
  {
    var s' := OnRestart(s);
    RestartEstablishes(s);
    if u in s.rows && Reloaded(s.rows[u].status) {
      CopyIs(s', Rebuilt(u), u);
    } else {
      NoCopy(s', u);
    }
  }

  lemma MirrorGarbledMove(c: Config, s: State, move: Move, u: nat)
    requires Inv(s) && Mover(move).Some? && Subject(s, move).None?
    ensures ViewOf(Step(c, s, move), u) == ViewOf(s, u)
  {
    var s' := Step(c, s, move);
    StepKeepsInv(c, s, move);
    if s' != s {
      if move.GotBalance? { MirrorGarbled(c, s, move.id, move.reading, u); } else { FrameView(s, s', u); }
    }
  }

  lemma MirrorHealthCheck(c: Config, s: State, u: nat)
    requires Inv(s)
    ensures ViewOf(DoHealthCheck(s), u) == ViewOf(s, u)
  {
    KeepAtHealthCheck(s);
    FrameView(s, DoHealthCheck(s), u);
  }

  /** What a step does to the view of one transaction. */
  function LocalMoveOf(c: Config, s: State, move: Move, u: nat): LocalMove {
    if move.Restart? then Reload
    else if Subject(s, move) != Some(u) || Step(c, s, move) == s then Stay
    else if move.Submit? then Begin(move.msg)
    else
      var id := Mover(move).value;
      var copy := s.copies[id];
      if move.GotBalance? then DispatchMove(c, copy.msg)
      else if move.GotRecheck? then RecheckMove(c, s, move.reading)
      else if move.GotFinalReceipt? then Fetch(move.receipt)
      else if move.Applied? && copy.place.Delivered? && copy.place.point.Writing? then Commit(copy.place.point.write)
      else if move.Resumed? && copy.place.Delivered? && copy.place.point.Wrote? then
        ResumeMove(s, copy.msg, copy.place.point.write)
      else if move.Answered? then Drop
      else if id in Step(c, s, move).copies then Shift(Step(c, s, move).copies[id].place)
      else Stay
  }

  lemma SimulatesShift(c: Config, s: State, move: Move, u: nat)
    requires Inv(s) && Step(c, s, move) != s && Subject(s, move).Some? && Shifting(move)
    ensures Allowed(c, ViewOf(s, u), LocalMoveOf(c, s, move, u))
    ensures ViewOf(Step(c, s, move), u) == LocalStep(c, u, ViewOf(s, u), LocalMoveOf(c, s, move, u))
  {
    MirrorShift(c, s, move, u);
  }

  lemma SimulatesNobody(c: Config, s: State, move: Move, u: nat)
    requires Inv(s) && Subject(s, move).None? && !move.Restart?
    ensures ViewOf(Step(c, s, move), u) == ViewOf(s, u)
  {
    if move.HealthCheck? {
      MirrorHealthCheck(c, s, u);
    } else if !move.Submit? && Mover(move).Some? {
      MirrorGarbledMove(c, s, move, u);
    }
  }

  lemma SimulatesRest(c: Config, s: State, move: Move, u: nat)
    requires Inv(s) && Step(c, s, move) != s && Subject(s, move).Some? && !Shifting(move) && !move.Restart?
    ensures Allowed(c, ViewOf(s, u), LocalMoveOf(c, s, move, u))
    ensures ViewOf(Step(c, s, move), u) == LocalStep(c, u, ViewOf(s, u), LocalMoveOf(c, s, move, u))
  {
    if move.Submit? {
      MirrorSubmit(c, s, move.msg, u);
    } else if move.GotBalance? {
      MirrorDispatch(c, s, move.id, move.reading, u);
    } else if move.GotRecheck? {
      MirrorRecheck(c, s, move.id, move.reading, u);
    } else if move.GotFinalReceipt? {
      MirrorFetch(c, s, move.id, move.receipt, u);
    } else if move.Applied? {
      MirrorCommit(c, s, move.id, s.copies[move.id].place.point.write, u);
    } else if move.Resumed? {
      MirrorResume(c, s, move.id, s.copies[move.id].place.point.write, u);
    } else {
      MirrorAnswer(c, s, move.id, u);
    }
  }

  /** Every step of the queue, by whichever handler, is a step of the automaton on every transaction's view. */
  lemma Simulates(c: Config, s: State, move: Move, u: nat)
    requires Inv(s)
    ensures Allowed(c, ViewOf(s, u), LocalMoveOf(c, s, move, u))
    ensures ViewOf(Step(c, s, move), u) == LocalStep(c, u, ViewOf(s, u), LocalMoveOf(c, s, move, u))
  {
    if move.Restart? {
      MirrorRestart(c, s, u);
    } else if Subject(s, move).None? {
      SimulatesNobody(c, s, move, u);
    } else if Step(c, s, move) != s {
      if Shifting(move) { SimulatesShift(c, s, move, u); } else { SimulatesRest(c, s, move, u); }
    }
  }
}
