/** Concrete runs of the queue, built from short schedules whose effect is stated once and then put together.

    A schedule is a function from the copies it is about to a list of moves, and a lemma `RunsX` says what running
    schedule `X` does to the rows, the copies and the history. `RunConcat` joins two of them, `RunCons` runs one block.
    The pieces are the way of a message to its first broadcast and receipt, the way of a pending one to the final
    receipt, the completion with and without logs, two handlers side by side, a delivery left without gas, a timer
    that a restart sets again, and a warm-up of a running process. `QueueWitnesses` draws the conclusions: each of its
    claims names a run that starts from the empty queue and shows where a stronger claim would fail. */
module QueueRuns {
  import opened Transactions
  import opened QueueSpec
  import opened QueueSafety
  import opened QueueTheorems
  import opened QueueLocal
  import opened QueueCrashes

  const CONFIG := Config(1.0, 2.0, 15, 8, false)

  lemma {:induction false} RunConcat(c: Config, s: State, a: seq<Move>, b: seq<Move>)
    ensures Run(c, s, a + b) == Run(c, Run(c, s, a), b)
    decreases |a|
  {
    if a == [] {
      assert [] + b == b;
    } else {
      assert (a + b)[1..] == a[1..] + b;
      RunConcat(c, Step(c, s, a[0]), a[1..], b);
    }
  }

  lemma RunCons(c: Config, s: State, move: Move, rest: seq<Move>)
    ensures Run(c, s, [move] + rest) == Run(c, Step(c, s, move), rest)
  {
    assert ([move] + rest)[1..] == rest;
  }

  /** A message that has just been submitted and is to be reported. */
  predicate Sample(m: Message) {
    m.Tx? && m.status.Initial? && m.callback == Some("callback")
  }

  /** The message once its first receipt has arrived. */
  function Sent(m: Message): Message
    requires m.Tx?
  {
    m.(status := Pending)
  }

  /** A pending message with a counter at zero. */
  predicate Counted(p: Message) {
    p.Tx? && p.status.Pending? && p.retries == Tries(0)
  }

  function ToWallet(id: CopyId): seq<Move> {
    [Accept(id)] + ([Deliver(id)] + ([GotWallet(id)] + []))
  }

  lemma Fetched(s: State, id: CopyId)
    requires id in s.copies && s.copies[id].place.Pushing?
    ensures Run(CONFIG, s, ToWallet(id)) == Goto(s, id, FetchingBalance)
  {
    var s1 := MoveTo(s, id, Queued);
    var s2 := Goto(s1, id, FetchingWallet);
    RunCons(CONFIG, s, Accept(id), [Deliver(id)] + ([GotWallet(id)] + []));
    RunCons(CONFIG, s1, Deliver(id), [GotWallet(id)] + []);
    RunCons(CONFIG, s2, GotWallet(id), []);
    assert Goto(s2, id, FetchingBalance).copies == Goto(s, id, FetchingBalance).copies;
  }

  // ---- From submission to PENDING ----

  function Broadcasting(id: CopyId): seq<Move> {
    [GotBalance(id, 5.0)] + ([GotRecheck(id, 5.0)] + [])
  }

  function Receiving(id: CopyId): seq<Move> {
    [GotReceipt(id, Receipt(true, false, []))] + ([Applied(id)] + [])
  }

  function Submitting(m: Message, id: CopyId): seq<Move> {
    [Submit(m)] + ([FinishSubmit(id)] + [])
  }

  /** From submission to the moment the row has become PENDING but the handler has not continued. */
  function FirstHalf(m: Message, n: nat): seq<Move> {
    var id := Pushed(n);
    Submitting(m, id) + (ToWallet(id) + (Broadcasting(id) + Receiving(id)))
  }

  lemma RunsSubmitting(s: State, m: Message)
    requires Sample(m) && m.uuid !in s.rows
    ensures var id := Pushed(s.nextPush);
            var s' := Run(CONFIG, s, Submitting(m, id));
            && s'.rows == s.rows[m.uuid := NewRow(m)]
            && s'.copies == s.copies[id := Copy(m, Pushing)]
            && s'.nextPush == s.nextPush + 1 && s'.history.posts == s.history.posts
            && s'.history.submitted == s.history.submitted[m.uuid := m.retries]
  {
    var id := Pushed(s.nextPush);
    RunCons(CONFIG, s, Submit(m), [FinishSubmit(id)] + []);
    RunCons(CONFIG, DoSubmit(s, m), FinishSubmit(id), []);
  }

  lemma RunsBroadcasting(s: State, id: CopyId, m: Message)
    requires Sample(m) && id in s.copies && s.copies[id] == Copy(m, Delivered(FetchingBalance))
    ensures var s' := Run(CONFIG, s, Broadcasting(id));
            && s'.rows == s.rows && s'.nextPush == s.nextPush && s'.history.posts == s.history.posts
            && s'.history.submitted == s.history.submitted
            && s'.copies == s.copies[id := Copy(m, Delivered(Point.Broadcasting))]
  {
    var s1 := OnBalance(CONFIG, s, id, 5.0);
    RunCons(CONFIG, s, GotBalance(id, 5.0), [GotRecheck(id, 5.0)] + []);
    RunCons(CONFIG, s1, GotRecheck(id, 5.0), []);
    assert OnRecheck(CONFIG, s1, id, 5.0).copies == s.copies[id := Copy(m, Delivered(Point.Broadcasting))];
  }

  lemma RunsReceiving(s: State, id: CopyId, m: Message)
    requires Sample(m) && id in s.copies && s.copies[id] == Copy(m, Delivered(Point.Broadcasting))
    requires m.uuid in s.rows && s.rows[m.uuid] == NewRow(m)
    ensures var s' := Run(CONFIG, s, Receiving(id));
            && s'.rows == s.rows[m.uuid := NewRow(Sent(m))]
            && s'.copies == s.copies[id := Copy(m, Delivered(Wrote(ToPending)))]
            && s'.nextPush == s.nextPush && s'.history.posts == s.history.posts
            && s'.history.submitted == s.history.submitted
  {
    var s1 := OnReceipt(s, id, Receipt(true, false, []));
    RunCons(CONFIG, s, GotReceipt(id, Receipt(true, false, [])), [Applied(id)] + []);
    RunCons(CONFIG, s1, Applied(id), []);
    assert OnApplied(s1, id, ToPending).copies == s.copies[id := Copy(m, Delivered(Wrote(ToPending)))];
  }

  lemma RunsBroadcastAndReceipt(s: State, id: CopyId, m: Message)
    requires Sample(m) && id in s.copies && s.copies[id] == Copy(m, Delivered(FetchingBalance))
    requires m.uuid in s.rows && s.rows[m.uuid] == NewRow(m)
    ensures var s' := Run(CONFIG, s, Broadcasting(id) + Receiving(id));
            && s'.rows == s.rows[m.uuid := NewRow(Sent(m))]
            && s'.copies == s.copies[id := Copy(m, Delivered(Wrote(ToPending)))]
            && s'.nextPush == s.nextPush && s'.history.posts == s.history.posts
            && s'.history.submitted == s.history.submitted
  {
    RunsBroadcasting(s, id, m);
    RunsReceiving(Run(CONFIG, s, Broadcasting(id)), id, m);
    RunConcat(CONFIG, s, Broadcasting(id), Receiving(id));
  }

  lemma RunsFirstHalf(s: State, m: Message)
    requires Sample(m) && m.uuid !in s.rows
    ensures var id := Pushed(s.nextPush);
            var s' := Run(CONFIG, s, FirstHalf(m, s.nextPush));
            && s'.rows == s.rows[m.uuid := NewRow(Sent(m))]
            && s'.copies == s.copies[id := Copy(m, Delivered(Wrote(ToPending)))]
            && s'.nextPush == s.nextPush + 1 && s'.history.posts == s.history.posts
            && s'.history.submitted == s.history.submitted[m.uuid := m.retries]
  {
    var id := Pushed(s.nextPush);
    var s1 := Run(CONFIG, s, Submitting(m, id));
    RunsSubmitting(s, m);
    RunConcat(CONFIG, s, Submitting(m, id), ToWallet(id) + (Broadcasting(id) + Receiving(id)));
    RunConcat(CONFIG, s1, ToWallet(id), Broadcasting(id) + Receiving(id));
    Fetched(s1, id);
    RunsBroadcastAndReceipt(Goto(s1, id, FetchingBalance), id, m);
  }

  // ---- From PENDING to the final receipt ----

  /** A pushed pending message is delivered, waits, and is found confirmed. */
  function Confirming(id: CopyId): seq<Move> {
    ToWallet(id) + ([GotBalance(id, 5.0)] + ([TimerFired(id)] + ([GotFlag(id, true)] + [])))
  }

  lemma AsksForReceipt(s: State, id: CopyId, p: Message)
    requires Counted(p) && id in s.copies && s.copies[id] == Copy(p, Delivered(Waiting))
    ensures Run(CONFIG, s, [TimerFired(id)] + ([GotFlag(id, true)] + [])) == Goto(s, id, FetchingReceipt)
  {
    var s1 := Goto(s, id, FetchingFlag);
    RunCons(CONFIG, s, TimerFired(id), [GotFlag(id, true)] + []);
    RunCons(CONFIG, s1, GotFlag(id, true), []);
    assert Step(CONFIG, s1, GotFlag(id, true)) == Goto(s1, id, Verdict(CONFIG, Tries(0), true));
    assert Goto(s1, id, FetchingReceipt).copies == Goto(s, id, FetchingReceipt).copies;
  }

  lemma WaitsAndAsks(s: State, id: CopyId, p: Message)
    requires Counted(p) && id in s.copies && s.copies[id] == Copy(p, Delivered(FetchingBalance))
    ensures var s' := Run(CONFIG, s, [GotBalance(id, 5.0)] + ([TimerFired(id)] + ([GotFlag(id, true)] + [])));
            && s'.rows == s.rows && s'.nextPush == s.nextPush && s'.history.posts == s.history.posts
            && s'.history.submitted == s.history.submitted
            && s'.copies == s.copies[id := Copy(p, Delivered(FetchingReceipt))]
  {
    var s1 := OnBalance(CONFIG, s, id, 5.0);
    RunCons(CONFIG, s, GotBalance(id, 5.0), [TimerFired(id)] + ([GotFlag(id, true)] + []));
    assert s1.copies == s.copies[id := Copy(p, Delivered(Waiting))];
    AsksForReceipt(s1, id, p);
  }

  lemma RunsConfirming(s: State, id: CopyId, p: Message)
    requires Counted(p) && id in s.copies && s.copies[id] == Copy(p, Pushing)
    ensures var s' := Run(CONFIG, s, Confirming(id));
            && s'.rows == s.rows && s'.nextPush == s.nextPush && s'.history.posts == s.history.posts
            && s'.history.submitted == s.history.submitted
            && s'.copies == s.copies[id := Copy(p, Delivered(FetchingReceipt))]
  {
    RunConcat(CONFIG, s, ToWallet(id), [GotBalance(id, 5.0)] + ([TimerFired(id)] + ([GotFlag(id, true)] + [])));
    Fetched(s, id);
    WaitsAndAsks(Goto(s, id, FetchingBalance), id, p);
  }

  function SecondHalf(n: nat): seq<Move> {
    [Resumed(Pushed(n))] + Confirming(Pushed(n + 1))
  }

  lemma RunsSecondHalf(s: State, m: Message, n: nat)
    requires Sample(m) && m.retries == Tries(0)
    requires s.nextPush == n + 1 && Pushed(n + 1) !in s.copies && Pushed(n) in s.copies
    requires s.copies[Pushed(n)] == Copy(m, Delivered(Wrote(ToPending)))
    ensures var s' := Run(CONFIG, s, SecondHalf(n));
            && s'.rows == s.rows
            && s'.copies == (s.copies - {Pushed(n)})[Pushed(n + 1) := Copy(Sent(m), Delivered(FetchingReceipt))]
            && s'.nextPush == n + 2 && s'.history.posts == s.history.posts
  {
    var s1 := Requeue(s, Pushed(n), Sent(m));
    assert Step(CONFIG, s, Resumed(Pushed(n))) == s1;
    RunCons(CONFIG, s, Resumed(Pushed(n)), Confirming(Pushed(n + 1)));
    RunsConfirming(s1, Pushed(n + 1), Sent(m));
  }

  function ToReceipt(m: Message, n: nat): seq<Move> {
    FirstHalf(m, n) + SecondHalf(n)
  }

  /** A handler is about to fetch the final receipt of a message. */
  predicate Ready(s: State, id: CopyId, m: Message)
    requires m.Tx?
  {
    id in s.copies && s.copies[id] == Copy(Sent(m), Delivered(FetchingReceipt)) && m.uuid in s.rows
  }

  lemma RunsToReceipt(s: State, m: Message)
    requires Sample(m) && m.retries == Tries(0) && m.uuid !in s.rows && Numbered(s)
    ensures var n := s.nextPush;
            var s' := Run(CONFIG, s, ToReceipt(m, n));
            && s'.rows == s.rows[m.uuid := NewRow(Sent(m))]
            && s'.copies == s.copies[Pushed(n + 1) := Copy(Sent(m), Delivered(FetchingReceipt))]
            && s'.nextPush == n + 2 && s'.history.posts == s.history.posts && Numbered(s')
  {
    var n := s.nextPush;
    assert Pushed(n) !in s.copies && Pushed(n + 1) !in s.copies;
    RunsFirstHalf(s, m);
    RunConcat(CONFIG, s, FirstHalf(m, n), SecondHalf(n));
    RunsSecondHalf(Run(CONFIG, s, FirstHalf(m, n)), m, n);
    assert (s.copies[Pushed(n) := Copy(m, Delivered(Wrote(ToPending)))] - {Pushed(n)}) == s.copies;
  }

  // ---- The final receipt ----

  /** A receipt whose logs decode to one text. */
  function Logged(text: string): Receipt {
    Receipt(true, true, [text])
  }

  /** A handler fetches its final receipt and decodes the events. */
  function Decode(id: CopyId, text: string): seq<Move> {
    [GotFinalReceipt(id, Logged(text))] + ([GotDecoded(id)] + [])
  }

  lemma RunsDecode(s: State, id: CopyId, p: Message, text: string)
    requires p.Tx? && id in s.copies && s.copies[id] == Copy(p, Delivered(FetchingReceipt))
    ensures var s' := Run(CONFIG, s, Decode(id, text));
            && s'.rows == s.rows && s'.history.posts == s.history.posts && s'.eventArray == Decoded([text])
            && s'.history.fetched == s.history.fetched[p.uuid := Logged(text)]
            && s'.history.submitted == s.history.submitted
            && s'.copies == s.copies[id := Copy(p, Delivered(Writing(ToComplete(Decoded([text])))))]
  {
    var s1 := OnFinalReceipt(s, id, Logged(text));
    RunCons(CONFIG, s, GotFinalReceipt(id, Logged(text)), [GotDecoded(id)] + []);
    RunCons(CONFIG, s1, GotDecoded(id), []);
  }

  function Completing(id: CopyId, text: string): seq<Move> {
    Decode(id, text) + ([Applied(id)] + [])
  }

  /** The handler decodes its events and its row becomes COMPLETE; it has not continued. */
  lemma RunsComplete(s: State, id: CopyId, p: Message, text: string)
    requires p.Tx? && id in s.copies && s.copies[id] == Copy(p, Delivered(FetchingReceipt)) && p.uuid in s.rows
    ensures var s' := Run(CONFIG, s, Completing(id, text));
            && s'.rows == s.rows[p.uuid := s.rows[p.uuid].(status := Complete, events := Some(Decoded([text])))]
            && s'.history.posts == s.history.posts && s'.history.submitted == s.history.submitted
            && s'.history.fetched == s.history.fetched[p.uuid := Logged(text)]
            && s'.copies == s.copies[id := Copy(p, Delivered(Wrote(ToComplete(Decoded([text])))))]
  {
    var s1 := Run(CONFIG, s, Decode(id, text));
    RunsDecode(s, id, p, text);
    RunConcat(CONFIG, s, Decode(id, text), [Applied(id)] + []);
    RunCons(CONFIG, s1, Applied(id), []);
    assert Step(CONFIG, s1, Applied(id)) == OnApplied(s1, id, ToComplete(Decoded([text])));
  }

  // ---- Two handlers side by side ----

  /** Both handlers are about to fetch their final receipts. */
  function BothReady(m: Message, m': Message, n: nat): seq<Move> {
    ToReceipt(m, n) + ToReceipt(m', n + 2)
  }

  lemma RunsSecondReady(s: State, id: CopyId, m: Message, m': Message)
    requires Sample(m) && Sample(m') && m'.retries == Tries(0) && m'.uuid !in s.rows && m.uuid != m'.uuid
    requires Numbered(s) && Ready(s, id, m)
    ensures var n := s.nextPush;
            var s' := Run(CONFIG, s, ToReceipt(m', n));
            s'.history.posts == s.history.posts && Ready(s', id, m) && Ready(s', Pushed(n + 1), m')
  {
    RunsToReceipt(s, m');
  }

  lemma RunsBothReady(s: State, m: Message, m': Message)
    requires Sample(m) && Sample(m') && m.retries == m'.retries == Tries(0)
    requires m.uuid !in s.rows && m'.uuid !in s.rows && m.uuid != m'.uuid && Numbered(s)
    ensures var n := s.nextPush;
            var s' := Run(CONFIG, s, BothReady(m, m', n));
            s'.history.posts == s.history.posts && Ready(s', Pushed(n + 1), m) && Ready(s', Pushed(n + 3), m')
  {
    var n := s.nextPush;
    var s1 := Run(CONFIG, s, ToReceipt(m, n));
    assert && m'.uuid !in s1.rows && Numbered(s1) && s1.nextPush == n + 2
           && s1.history.posts == s.history.posts && Ready(s1, Pushed(n + 1), m)
    by {
      RunsToReceipt(s, m);
    }
    RunsSecondReady(s1, Pushed(n + 1), m, m');
    RunConcat(CONFIG, s, ToReceipt(m, n), ToReceipt(m', n + 2));
  }

  /** The second handler decodes its events between the first one's update and its next block. */
  function Overlap(a: CopyId, b: CopyId): seq<Move> {
    Completing(a, "a") + Decode(b, "b")
  }

  /** The first row holds its own events, the shared variable the other transaction's. */
  predicate Mixed(s: State, a: CopyId, m: Message, m': Message)
    requires m.Tx? && m'.Tx?
  {
    && a in s.copies && s.copies[a] == Copy(Sent(m), Delivered(Wrote(ToComplete(Decoded(["a"])))))
    && m.uuid in s.rows && s.rows[m.uuid].events == Some(Decoded(["a"]))
    && s.eventArray == Decoded(["b"]) && m.uuid != m'.uuid
    && m.uuid in s.history.fetched && s.history.fetched[m.uuid] == Logged("a")
    && m'.uuid in s.history.fetched && s.history.fetched[m'.uuid] == Logged("b")
  }

  lemma RunsOverlap(s: State, a: CopyId, b: CopyId, m: Message, m': Message)
    requires Sample(m) && Sample(m') && m.uuid != m'.uuid && a != b && Ready(s, a, m) && Ready(s, b, m')
    ensures var s' := Run(CONFIG, s, Overlap(a, b));
            Mixed(s', a, m, m') && s'.history.posts == s.history.posts
  {
    RunsComplete(s, a, Sent(m), "a");
    var s1 := Run(CONFIG, s, Completing(a, "a"));
    RunsDecode(s1, b, Sent(m'), "b");
    RunConcat(CONFIG, s, Completing(a, "a"), Decode(b, "b"));
  }

  function MixedUp(m: Message, m': Message): seq<Move> {
    BothReady(m, m', 0) + Overlap(Pushed(1), Pushed(3))
  }

  lemma RunsMixedUp(m: Message, m': Message)
    requires Sample(m) && Sample(m') && m.retries == m'.retries == Tries(0) && m.uuid != m'.uuid
    ensures var s := Run(CONFIG, INITIAL_STATE, MixedUp(m, m'));
            Mixed(s, Pushed(1), m, m') && s.history.posts == []
  {
    RunsBothReady(INITIAL_STATE, m, m');
    RunsOverlap(Run(CONFIG, INITIAL_STATE, BothReady(m, m', 0)), Pushed(1), Pushed(3), m, m');
    RunConcat(CONFIG, INITIAL_STATE, BothReady(m, m', 0), Overlap(Pushed(1), Pushed(3)));
  }

  lemma ConcatIsCrashFree(a: seq<Move>, b: seq<Move>)
    requires CrashFree(a) && CrashFree(b)
    ensures CrashFree(a + b)
  {
  }

  lemma HalvesAreCrashFree(m: Message, n: nat)
    ensures CrashFree(ToReceipt(m, n))
  {
    assert CrashFree(FirstHalf(m, n));
    assert CrashFree(SecondHalf(n));
    ConcatIsCrashFree(FirstHalf(m, n), SecondHalf(n));
  }

  lemma MixedUpIsCrashFree(m: Message, m': Message)
    ensures CrashFree(MixedUp(m, m'))
  {
    HalvesAreCrashFree(m, 0);
    HalvesAreCrashFree(m', 2);
    ConcatIsCrashFree(ToReceipt(m, 0), ToReceipt(m', 2));
    assert CrashFree(Overlap(Pushed(1), Pushed(3)));
    ConcatIsCrashFree(BothReady(m, m', 0), Overlap(Pushed(1), Pushed(3)));
  }

  // ---- What the first handler then reports ----

  lemma RunsReport(s: State, a: CopyId, m: Message, m': Message)
    requires Sample(m) && Sample(m') && Mixed(s, a, m, m') && !m.deploy
    ensures var s' := Run(CONFIG, s, [Resumed(a)] + []);
            && s'.rows == s.rows && s'.history.fetched == s.history.fetched
            && s'.history.posts == s.history.posts + [Post(m.uuid, Some("callback"), Complete, Some(Decoded(["b"])))]
  {
    RunCons(CONFIG, s, Resumed(a), []);
    assert Step(CONFIG, s, Resumed(a)) == OnResumed(s, a, ToComplete(Decoded(["a"])));
  }

  function ForeignReport(m: Message, m': Message): seq<Move> {
    MixedUp(m, m') + ([Resumed(Pushed(1))] + [])
  }

  lemma RunsForeignReport(m: Message, m': Message)
    requires Sample(m) && Sample(m') && m.retries == m'.retries == Tries(0) && m.uuid != m'.uuid && !m.deploy
    ensures var s := Run(CONFIG, INITIAL_STATE, ForeignReport(m, m'));
            && m.uuid in s.history.fetched && s.history.fetched[m.uuid] == Logged("a")
            && m'.uuid in s.history.fetched && s.history.fetched[m'.uuid] == Logged("b")
            && m.uuid in s.rows && s.rows[m.uuid].events == Some(Decoded(["a"]))
            && s.history.posts == [Post(m.uuid, Some("callback"), Complete, Some(Decoded(["b"])))]
    ensures CrashFree(ForeignReport(m, m'))
  {
    var tail := [Resumed(Pushed(1))] + [];
    RunsMixedUp(m, m');
    RunsReport(Run(CONFIG, INITIAL_STATE, MixedUp(m, m')), Pushed(1), m, m');
    RunConcat(CONFIG, INITIAL_STATE, MixedUp(m, m'), tail);
    MixedUpIsCrashFree(m, m');
    assert CrashFree(tail);
    ConcatIsCrashFree(MixedUp(m, m'), tail);
  }

  /** A completing handler's next block and the update it asks for. */
  function NextWrite(a: CopyId): seq<Move> {
    [Resumed(a)] + ([Applied(a)] + [])
  }

  lemma WritesAddress(s: State, a: CopyId, m: Message, m': Message)
    requires Sample(m) && Sample(m') && Mixed(s, a, m, m') && m.deploy
    ensures var s' := Run(CONFIG, s, NextWrite(a));
            && s'.rows == s.rows[m.uuid := s.rows[m.uuid].(address := Some(Decoded(["b"])))]
            && a in s'.copies && s'.copies[a] == Copy(Sent(m), Delivered(Wrote(ToAddress(Decoded(["b"])))))
            && s'.history.fetched == s.history.fetched && s'.eventArray == Decoded(["b"])
  {
    var s1 := OnResumed(s, a, ToComplete(Decoded(["a"])));
    RunCons(CONFIG, s, Resumed(a), [Applied(a)] + []);
    RunCons(CONFIG, s1, Applied(a), []);
    assert Step(CONFIG, s, Resumed(a)) == s1;
    assert Step(CONFIG, s1, Applied(a)) == OnApplied(s1, a, ToAddress(Decoded(["b"])));
  }

  lemma WritesProject(s: State, a: CopyId, p: Message, address: Events)
    requires p.Tx? && a in s.copies && s.copies[a] == Copy(p, Delivered(Wrote(ToAddress(address)))) && p.uuid in s.rows
    ensures var s' := Run(CONFIG, s, NextWrite(a));
            && s'.rows == s.rows && s'.history.fetched == s.history.fetched
            && p.project in s'.projects && s'.projects[p.project] == s.eventArray
  {
    var s1 := OnResumed(s, a, ToAddress(address));
    RunCons(CONFIG, s, Resumed(a), [Applied(a)] + []);
    RunCons(CONFIG, s1, Applied(a), []);
    assert Step(CONFIG, s, Resumed(a)) == s1;
    assert Step(CONFIG, s1, Applied(a)) == OnApplied(s1, a, ToProject(s.eventArray));
    assert OnApplied(s1, a, ToProject(s.eventArray)).rows == s.rows;
  }

  lemma RunsAddresses(s: State, a: CopyId, m: Message, m': Message)
    requires Sample(m) && Sample(m') && Mixed(s, a, m, m') && m.deploy
    ensures var s' := Run(CONFIG, s, NextWrite(a) + NextWrite(a));
            && m.uuid in s'.rows && s'.rows[m.uuid] == s.rows[m.uuid].(address := Some(Decoded(["b"])))
            && m.project in s'.projects && s'.projects[m.project] == Decoded(["b"])
            && s'.history.fetched == s.history.fetched
  {
    WritesAddress(s, a, m, m');
    WritesProject(Run(CONFIG, s, NextWrite(a)), a, Sent(m), Decoded(["b"]));
    RunConcat(CONFIG, s, NextWrite(a), NextWrite(a));
  }

  function ForeignAddress(m: Message, m': Message): seq<Move> {
    MixedUp(m, m') + (NextWrite(Pushed(1)) + NextWrite(Pushed(1)))
  }

  lemma RunsForeignAddress(m: Message, m': Message)
    requires Sample(m) && Sample(m') && m.retries == m'.retries == Tries(0) && m.uuid != m'.uuid && m.deploy
    ensures var s := Run(CONFIG, INITIAL_STATE, ForeignAddress(m, m'));
            && m.uuid in s.history.fetched && s.history.fetched[m.uuid] == Logged("a")
            && m'.uuid in s.history.fetched && s.history.fetched[m'.uuid] == Logged("b")
            && m.uuid in s.rows && s.rows[m.uuid].address == Some(Decoded(["b"]))
            && s.rows[m.uuid].events == Some(Decoded(["a"]))
            && m.project in s.projects && s.projects[m.project] == Decoded(["b"])
    ensures CrashFree(ForeignAddress(m, m'))
  {
    var tail := NextWrite(Pushed(1)) + NextWrite(Pushed(1));
    RunsMixedUp(m, m');
    RunsAddresses(Run(CONFIG, INITIAL_STATE, MixedUp(m, m')), Pushed(1), m, m');
    RunConcat(CONFIG, INITIAL_STATE, MixedUp(m, m'), tail);
    MixedUpIsCrashFree(m, m');
    assert CrashFree(tail);
    ConcatIsCrashFree(MixedUp(m, m'), tail);
  }

  // ---- Restarts ----

  lemma {:induction false} LostConcat(c: Config, s: State, a: seq<Move>, b: seq<Move>, u: nat)
    requires Lost(c, Run(c, s, a), b, u)
    ensures Lost(c, s, a + b, u)
    decreases |a|
  {
    if a == [] {
      assert [] + b == b;
    } else {
      assert (a + b)[1..] == a[1..] + b && (a + b)[0] == a[0];
      LostConcat(c, Step(c, s, a[0]), a[1..], b, u);
    }
  }

  /** A transaction is complete and the process stops before its handler continues. */
  function UntilCompletion(m: Message): seq<Move> {
    ToReceipt(m, 0) + Completing(Pushed(1), "a")
  }

  lemma RunsUntilCompletion(m: Message)
    requires Sample(m) && m.retries == Tries(0)
    ensures var s := Run(CONFIG, INITIAL_STATE, UntilCompletion(m));
            && s.rows.Keys == {m.uuid} && s.rows[m.uuid].status == Complete
            && s.rows[m.uuid].callback == Some("callback") && s.history.posts == []
            && s.rows[m.uuid].deploy == m.deploy && s.rows[m.uuid].address == None
  {
    var s1 := Run(CONFIG, INITIAL_STATE, ToReceipt(m, 0));
    RunsToReceipt(INITIAL_STATE, m);
    RunsComplete(s1, Pushed(1), Sent(m), "a");
    RunConcat(CONFIG, INITIAL_STATE, ToReceipt(m, 0), Completing(Pushed(1), "a"));
    assert s1.rows.Keys == {m.uuid};
  }

  lemma CrashLoses(s: State, u: nat)
    requires s.rows.Keys == {u} && s.rows[u].status == Complete && s.rows[u].callback == Some("callback")
    requires s.history.posts == []
    ensures Run(CONFIG, s, [Restart]) == OnRestart(s) && OnRestart(s).copies == map[]
    ensures Lost(CONFIG, s, [Restart], u)
  {
    assert [Restart][1..] == [];
    assert PostsFor(s, u) == [] && Unreported(s, u);
    assert forall id :: id !in OnRestart(s).copies;
  }

  lemma RunsLoss(m: Message)
    requires Sample(m) && m.retries == Tries(0)
    ensures var moves := UntilCompletion(m) + [Restart];
            var s := Run(CONFIG, INITIAL_STATE, moves);
            && Lost(CONFIG, INITIAL_STATE, moves, m.uuid)
            && m.uuid in s.rows && s.rows[m.uuid].status == Complete && s.rows[m.uuid].callback == Some("callback")
            && s.history.posts == [] && s.copies == map[]
            && s.rows[m.uuid].deploy == m.deploy && s.rows[m.uuid].address == None
  {
    var s1 := Run(CONFIG, INITIAL_STATE, UntilCompletion(m));
    RunsUntilCompletion(m);
    CrashLoses(s1, m.uuid);
    RunConcat(CONFIG, INITIAL_STATE, UntilCompletion(m), [Restart]);
    LostConcat(CONFIG, INITIAL_STATE, UntilCompletion(m), [Restart], m.uuid);
  }

  /** A transaction is found PENDING by a restart and then confirmed and completed. */
  function Revival(u: nat): seq<Move> {
    [Restart] + (Confirming(Rebuilt(u)) + Completing(Rebuilt(u), "a"))
  }

  lemma RunsConfirmedCompletion(s: State, id: CopyId, p: Message)
    requires Counted(p) && id in s.copies && s.copies[id] == Copy(p, Pushing) && p.uuid in s.rows
    ensures var s' := Run(CONFIG, s, Confirming(id) + Completing(id, "a"));
            && p.uuid in s'.rows && s'.rows[p.uuid].status == Complete
            && s'.history.submitted == s.history.submitted
  {
    RunsConfirming(s, id, p);
    RunsComplete(Run(CONFIG, s, Confirming(id)), id, p, "a");
    RunConcat(CONFIG, s, Confirming(id), Completing(id, "a"));
  }

  lemma RunsRevival(s: State, u: nat)
    requires u in s.rows && s.rows[u].status == Pending && s.rows[u].retries == Absent
    ensures var s' := Run(CONFIG, s, Revival(u));
            && u in s'.rows && s'.rows[u].status == Complete && s'.history.submitted == s.history.submitted
  {
    var p := RowMessage(u, s.rows[u]);
    RunCons(CONFIG, s, Restart, Confirming(Rebuilt(u)) + Completing(Rebuilt(u), "a"));
    assert Rebuilt(u) in OnRestart(s).copies && OnRestart(s).copies[Rebuilt(u)] == Copy(p, Pushing);
    RunsConfirmedCompletion(OnRestart(s), Rebuilt(u), p);
  }

  lemma RunsRawCompletion(m: Message)
    requires Sample(m) && m.retries == Absent
    ensures var s := Run(CONFIG, INITIAL_STATE, FirstHalf(m, 0) + Revival(m.uuid));
            && m.uuid in s.history.submitted && s.history.submitted[m.uuid] == Absent
            && m.uuid in s.rows && s.rows[m.uuid].status == Complete
  {
    RunsFirstHalf(INITIAL_STATE, m);
    RunsRevival(Run(CONFIG, INITIAL_STATE, FirstHalf(m, 0)), m.uuid);
    RunConcat(CONFIG, INITIAL_STATE, FirstHalf(m, 0), Revival(m.uuid));
  }

  // ---- A withheld delivery ----

  /** Both balance readings are below the critical level. */
  function Starving(id: CopyId): seq<Move> {
    [GotBalance(id, 0.5)] + ([GotRecheck(id, 0.5)] + [])
  }

  lemma RunsStarving(s: State, id: CopyId, m: Message)
    requires Sample(m) && id in s.copies && s.copies[id] == Copy(m, Delivered(FetchingBalance))
    ensures var s' := Run(CONFIG, s, Starving(id));
            && s'.rows == s.rows && s'.nextPush == s.nextPush && !s'.gasOk
            && s'.copies == s.copies[id := Copy(m, Delivered(Withheld))]
  {
    var s1 := OnBalance(CONFIG, s, id, 0.5);
    RunCons(CONFIG, s, GotBalance(id, 0.5), [GotRecheck(id, 0.5)] + []);
    RunCons(CONFIG, s1, GotRecheck(id, 0.5), []);
    assert OnRecheck(CONFIG, s1, id, 0.5).copies == s.copies[id := Copy(m, Delivered(Withheld))];
  }

  /** The health check's message is delivered and read with enough gas. */
  function Recovering(id: CopyId): seq<Move> {
    [HealthCheck] + (ToWallet(id) + ([GotBalance(id, 5.0)] + []))
  }

  lemma ReadsEnoughGas(s: State, id: CopyId)
    requires id in s.copies && s.copies[id] == Copy(Garbled, Delivered(FetchingBalance))
    ensures var s' := Run(CONFIG, s, [GotBalance(id, 5.0)] + []);
            s'.gasOk && s'.copies == s.copies - {id} && s'.rows == s.rows
  {
    RunCons(CONFIG, s, GotBalance(id, 5.0), []);
    assert Step(CONFIG, s, GotBalance(id, 5.0)) == OnBalance(CONFIG, s, id, 5.0);
  }

  lemma RunsRecovering(s: State)
    requires Numbered(s)
    ensures var s' := Run(CONFIG, s, Recovering(Pushed(s.nextPush)));
            s'.gasOk && s'.copies == s.copies && s'.rows == s.rows
  {
    var id := Pushed(s.nextPush);
    var s1 := DoHealthCheck(s);
    RunCons(CONFIG, s, HealthCheck, ToWallet(id) + ([GotBalance(id, 5.0)] + []));
    RunConcat(CONFIG, s1, ToWallet(id), [GotBalance(id, 5.0)] + []);
    Fetched(s1, id);
    ReadsEnoughGas(Goto(s1, id, FetchingBalance), id);
    assert Goto(s1, id, FetchingBalance).copies - {id} == s.copies;
  }

  function Starved(m: Message): seq<Move> {
    Submitting(m, Pushed(0)) + (ToWallet(Pushed(0)) + Starving(Pushed(0)))
  }

  lemma RunsStarved(m: Message)
    requires Sample(m)
    ensures var s := Run(CONFIG, INITIAL_STATE, Starved(m));
            && !s.gasOk && s.nextPush == 1 && s.rows == map[m.uuid := NewRow(m)]
            && s.copies == map[Pushed(0) := Copy(m, Delivered(Withheld))]
  {
    var id := Pushed(0);
    var s1 := Run(CONFIG, INITIAL_STATE, Submitting(m, id));
    RunsSubmitting(INITIAL_STATE, m);
    RunConcat(CONFIG, INITIAL_STATE, Submitting(m, id), ToWallet(id) + Starving(id));
    RunConcat(CONFIG, s1, ToWallet(id), Starving(id));
    Fetched(s1, id);
    RunsStarving(Goto(s1, id, FetchingBalance), id, m);
  }

  lemma RunsStarvedAndRecovered(m: Message)
    requires Sample(m)
    ensures var s := Run(CONFIG, INITIAL_STATE, Starved(m) + Recovering(Pushed(1)));
            && s.gasOk && m.uuid in s.rows && s.rows[m.uuid].status == Initial
            && At(s, Pushed(0), Withheld) && Holds(s, Pushed(0), m.uuid)
    ensures CrashFree(Starved(m) + Recovering(Pushed(1)))
  {
    RunsStarved(m);
    RunsRecovering(Run(CONFIG, INITIAL_STATE, Starved(m)));
    RunConcat(CONFIG, INITIAL_STATE, Starved(m), Recovering(Pushed(1)));
    assert CrashFree(Starved(m));
    assert CrashFree(Recovering(Pushed(1)));
    ConcatIsCrashFree(Starved(m), Recovering(Pushed(1)));
  }

  // ---- A completion without logs ----

  function Quieting(id: CopyId): seq<Move> {
    [GotFinalReceipt(id, Receipt(true, false, []))] + ([Applied(id)] + [])
  }

  function Quiet(id: CopyId): seq<Move> {
    Quieting(id) + ([Resumed(id)] + [])
  }

  lemma QuietReceipt(s: State, id: CopyId, p: Message)
    requires Counted(p) && id in s.copies && s.copies[id] == Copy(p, Delivered(FetchingReceipt))
    ensures var s' := Step(CONFIG, s, GotFinalReceipt(id, Receipt(true, false, [])));
            && s'.rows == s.rows && s'.history.posts == s.history.posts && s'.eventArray == NoLogs
            && s'.copies == s.copies[id := Copy(p, Delivered(Writing(ToComplete(NoLogs))))]
  {
  }

  lemma RunsQuieting(s: State, id: CopyId, p: Message)
    requires Counted(p) && p.uuid in s.rows
    requires id in s.copies && s.copies[id] == Copy(p, Delivered(FetchingReceipt))
    ensures var s' := Run(CONFIG, s, Quieting(id));
            && s'.rows == s.rows[p.uuid := s.rows[p.uuid].(status := Complete, events := Some(NoLogs))]
            && s'.copies == s.copies[id := Copy(p, Delivered(Wrote(ToComplete(NoLogs))))]
            && s'.history.posts == s.history.posts && s'.eventArray == NoLogs
  {
    var r := Receipt(true, false, []);
    var s1 := Step(CONFIG, s, GotFinalReceipt(id, r));
    QuietReceipt(s, id, p);
    RunCons(CONFIG, s, GotFinalReceipt(id, r), [Applied(id)] + []);
    RunCons(CONFIG, s1, Applied(id), []);
    assert Step(CONFIG, s1, Applied(id)) == OnApplied(s1, id, ToComplete(NoLogs));
  }

  lemma ReportsNoLogs(s: State, id: CopyId, p: Message)
    requires Counted(p) && !p.deploy && p.callback == Some("callback") && s.eventArray == NoLogs
    requires id in s.copies && s.copies[id] == Copy(p, Delivered(Wrote(ToComplete(NoLogs))))
    ensures var s' := Run(CONFIG, s, [Resumed(id)] + []);
            && s'.rows == s.rows
            && s'.copies == s.copies[id := Copy(p.(status := Complete), Delivered(Posting))]
            && s'.history.posts == s.history.posts + [Post(p.uuid, Some("callback"), Complete, Some(NoLogs))]
  {
    RunCons(CONFIG, s, Resumed(id), []);
    assert Step(CONFIG, s, Resumed(id)) == OnResumed(s, id, ToComplete(NoLogs));
  }

  lemma RunsQuiet(s: State, id: CopyId, p: Message)
    requires Counted(p) && !p.deploy && p.callback == Some("callback") && p.uuid in s.rows
    requires id in s.copies && s.copies[id] == Copy(p, Delivered(FetchingReceipt))
    ensures var s' := Run(CONFIG, s, Quiet(id));
            && s'.rows == s.rows[p.uuid := s.rows[p.uuid].(status := Complete, events := Some(NoLogs))]
            && s'.copies == s.copies[id := Copy(p.(status := Complete), Delivered(Posting))]
            && s'.history.posts == s.history.posts + [Post(p.uuid, Some("callback"), Complete, Some(NoLogs))]
  {
    RunsQuieting(s, id, p);
    ReportsNoLogs(Run(CONFIG, s, Quieting(id)), id, p);
    RunConcat(CONFIG, s, Quieting(id), [Resumed(id)] + []);
  }

  function QuietCompletion(m: Message): seq<Move> {
    ToReceipt(m, 0) + Quiet(Pushed(1))
  }

  /** A transaction completes without logs and is reported: one post, with the text instead of a list. */
  lemma RunsQuietCompletion(m: Message)
    requires Sample(m) && m.retries == Tries(0) && !m.deploy
    ensures var s := Run(CONFIG, INITIAL_STATE, QuietCompletion(m));
            && m.uuid in s.rows && s.rows[m.uuid].status == Complete && s.rows[m.uuid].callback == Some("callback")
            && (forall id :: id in s.copies ==> s.copies[id].place == Delivered(Posting))
            && s.history.posts == [Post(m.uuid, Some("callback"), Complete, Some(NoLogs))]
    ensures CrashFree(QuietCompletion(m))
  {
    RunsToReceipt(INITIAL_STATE, m);
    RunsQuiet(Run(CONFIG, INITIAL_STATE, ToReceipt(m, 0)), Pushed(1), Sent(m));
    RunConcat(CONFIG, INITIAL_STATE, ToReceipt(m, 0), Quiet(Pushed(1)));
    HalvesAreCrashFree(m, 0);
    assert CrashFree(Quiet(Pushed(1)));
    ConcatIsCrashFree(ToReceipt(m, 0), Quiet(Pushed(1)));
  }

  // ---- Restarts repeat waits ----

  /** A rebuilt pending message is delivered and its timer is set. */
  function Arming(u: nat): seq<Move> {
    [Restart] + Timing(Rebuilt(u))
  }

  lemma SetsTimer(s: State, id: CopyId, p: Message)
    requires p.Tx? && p.status.Pending? && id in s.copies && s.copies[id] == Copy(p, Delivered(FetchingBalance))
    ensures var s' := Run(CONFIG, s, [GotBalance(id, 5.0)] + []);
            && s'.rows == s.rows && s'.history.submitted == s.history.submitted
            && |WaitsFor(s', p.uuid)| == |WaitsFor(s, p.uuid)| + 1
  {
    RunCons(CONFIG, s, GotBalance(id, 5.0), []);
    assert Step(CONFIG, s, GotBalance(id, 5.0)) == OnBalance(CONFIG, s, id, 5.0);
    OnlySnoc(s.history.waits, Wait(p.uuid, WaitMillis(CONFIG, p.retries)), (w: Wait) => w.uuid, p.uuid);
  }

  function Timing(id: CopyId): seq<Move> {
    ToWallet(id) + ([GotBalance(id, 5.0)] + [])
  }

  lemma RunsTiming(s: State, id: CopyId, p: Message)
    requires p.Tx? && p.status.Pending? && id in s.copies && s.copies[id] == Copy(p, Pushing)
    ensures var s' := Run(CONFIG, s, Timing(id));
            && s'.rows == s.rows && s'.history.submitted == s.history.submitted
            && |WaitsFor(s', p.uuid)| == |WaitsFor(s, p.uuid)| + 1
  {
    RunConcat(CONFIG, s, ToWallet(id), [GotBalance(id, 5.0)] + []);
    Fetched(s, id);
    SetsTimer(Goto(s, id, FetchingBalance), id, p);
  }

  lemma RunsArming(s: State, u: nat)
    requires u in s.rows && s.rows[u].status == Pending
    ensures var s' := Run(CONFIG, s, Arming(u));
            && s'.rows == s.rows && s'.history.submitted == s.history.submitted
            && |WaitsFor(s', u)| == |WaitsFor(s, u)| + 1
  {
    RunCons(CONFIG, s, Restart, Timing(Rebuilt(u)));
    RunsTiming(OnRestart(s), Rebuilt(u), RowMessage(u, s.rows[u]));
  }

  lemma RunsArmingTwice(m: Message)
    requires Sample(m)
    ensures var s := Run(CONFIG, INITIAL_STATE, FirstHalf(m, 0) + (Arming(m.uuid) + Arming(m.uuid)));
            && m.uuid in s.history.submitted && s.history.submitted[m.uuid] == m.retries && m.uuid in s.rows
            && |WaitsFor(s, m.uuid)| >= 2
  {
    var s1 := Run(CONFIG, INITIAL_STATE, FirstHalf(m, 0));
    RunsFirstHalf(INITIAL_STATE, m);
    RunConcat(CONFIG, INITIAL_STATE, FirstHalf(m, 0), Arming(m.uuid) + Arming(m.uuid));
    RunConcat(CONFIG, s1, Arming(m.uuid), Arming(m.uuid));
    RunsArming(s1, m.uuid);
    RunsArming(Run(CONFIG, s1, Arming(m.uuid)), m.uuid);
  }

  // ---- An overlapping warm-up ----

  lemma OverlapPushesAgain(s: State, m: Message)
    requires Sample(m) && s.rows == map[m.uuid := NewRow(Sent(m))]
    requires s.copies == map[Pushed(0) := Copy(m, Delivered(Wrote(ToPending)))]
    ensures Overlapped(s).copies
            == map[Pushed(0) := s.copies[Pushed(0)],
                   Rebuilt(m.uuid) := Copy(RowMessage(m.uuid, s.rows[m.uuid]), Pushing)]
  {
    var u := m.uuid;
    assert Rebuild(s.rows) == map[Rebuilt(u) := Copy(RowMessage(u, s.rows[u]), Pushing)];
  }

  lemma TwoLiveCopies(s: State, a: CopyId, b: CopyId, u: nat)
    requires a != b && s.copies.Keys == {a, b} && Holds(s, a, u) && Holds(s, b, u)
    requires Live(EffectiveStatus(s.copies[a])) && Live(EffectiveStatus(s.copies[b]))
    ensures |LiveCopies(s, u)| == 2
  {
    assert LiveCopies(s, u) == {a, b};
  }

  lemma DuplicatedByOverlap(s: State, m: Message)
    requires Sample(m) && s.rows == map[m.uuid := NewRow(Sent(m))]
    requires s.copies == map[Pushed(0) := Copy(m, Delivered(Wrote(ToPending)))]
    ensures |LiveCopies(Overlapped(s), m.uuid)| == 2
  {
    OverlapPushesAgain(s, m);
    TwoLiveCopies(Overlapped(s), Pushed(0), Rebuilt(m.uuid), m.uuid);
  }
}
