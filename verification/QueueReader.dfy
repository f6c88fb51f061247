/** The queue reader as it is written: module-level variables, a database and a broker that its blocks update in
    place. Every method is one uninterrupted block, keeps the invariant, and is proved to be exactly one step of
    `QueueSpec`; `HandleAll` runs any sequence of them. */
module QueueReader {
  import opened Transactions
  import opened QueueSpec
  import opened QueueSafety
  import opened QueueTheorems

  class TransactionQueue {
    const config: Config
    var rows: map<nat, Row>
    var copies: map<CopyId, Copy>
    var nextPush: nat
    var projects: map<nat, Events>
    var gasOk: bool
    var eventArray: Events
    ghost var history: History

    ghost function Snapshot(): State
      reads this
    {
      State(rows, copies, nextPush, projects, gasOk, eventArray, history)
    }

    ghost predicate Valid()
      reads this
    {
      Inv(Snapshot())
    }

    /** Some handler holds this transaction's delivery at this point. */
    predicate Here(id: CopyId, point: Point)
      reads this
    {
      id in copies && copies[id].msg.Tx? && copies[id].place == Delivered(point)
    }

    constructor (config: Config)
      ensures this.config == config && Snapshot() == INITIAL_STATE && Valid()
    {
      this.config := config;
      rows, copies, nextPush, projects := map[], map[], 0, map[];
      gasOk, eventArray := true, NoLogs;
      history := INITIAL_HISTORY;
    }

    /** The tail of every operation: insert the row; the push follows in a later block. */
    method Insert(msg: Message)
      requires msg.Tx? && msg.status.Initial? && msg.uuid !in rows
      requires Valid()
      modifies this
      ensures Snapshot() == Step(config, old(Snapshot()), Submit(msg))
      ensures Valid()
    {
      rows := rows[msg.uuid := NewRow(msg)];
      copies := copies[Pushed(nextPush) := Copy(msg, Submitting)];
      nextPush := nextPush + 1;
      history := history.(submitted := history.submitted[msg.uuid := msg.retries]);
      StepKeepsInv(config, old(Snapshot()), Submit(msg));
    }

    /** Set a copy's place. */
    method Put(id: CopyId, place: Place)
      requires id in copies
      modifies this`copies
      ensures copies == old(copies)[id := old(copies)[id].(place := place)]
    {
      copies := copies[id := copies[id].(place := place)];
    }

    method Acknowledge(id: CopyId)
      modifies this`copies
      ensures copies == old(copies) - {id}
    {
      copies := copies - {id};
    }

    /** Start a push without waiting for it. */
    method PushObject(msg: Message)
      modifies this`copies, this`nextPush
      ensures copies == old(copies)[Pushed(old(nextPush)) := Copy(msg, Pushing)] && nextPush == old(nextPush) + 1
    {
      copies := copies[Pushed(nextPush) := Copy(msg, Pushing)];
      nextPush := nextPush + 1;
    }

    method CheckGas(reading: real)
      modifies this`gasOk, this`history
      ensures gasOk == Latch(config, old(gasOk), reading)
      ensures history == old(history).(gas := old(history).gas + [Reading(reading)])
    {
      if reading <= config.critical {
        gasOk := false;
      } else if reading >= config.warning {
        gasOk := true;
      }
      history := history.(gas := history.gas + [Reading(reading)]);
    }

    method AssignEvents(events: Events, id: CopyId)
      modifies this`eventArray, this`history
      ensures eventArray == events && history == old(history).(writer := Some(id))
    {
      eventArray := events;
      history := history.(writer := Some(id));
    }

    /** The block after the first balance reading: parse the message and dispatch on its status. */
    method AfterBalance(id: CopyId, reading: real)
      requires At(Snapshot(), id, FetchingBalance)
      requires Valid()
      modifies this
      ensures Snapshot() == Step(config, old(Snapshot()), GotBalance(id, reading))
      ensures Valid()
    {
      CheckGas(reading);
      var msg := copies[id].msg;
      if msg.Garbled? {
        Acknowledge(id);
      } else {
        match msg.status {
          case Initial =>
            Put(id, Delivered(RecheckingBalance));
          case Pending =>
            var millis := if msg.retries.Tries? then config.blockTime * (msg.retries.n + 1) else 1;
            Put(id, Delivered(Waiting));
            history := history.(waits := history.waits + [Wait(msg.uuid, millis)]);
          case _ =>
            Acknowledge(id);
        }
      }
      StepKeepsInv(config, old(Snapshot()), GotBalance(id, reading));
    }

    /** The block after the second balance reading: broadcast, or keep the delivery unacknowledged. */
    method AfterRecheck(id: CopyId, reading: real)
      requires TxAt(Snapshot(), id, RecheckingBalance)
      requires Valid()
      modifies this
      ensures Snapshot() == Step(config, old(Snapshot()), GotRecheck(id, reading))
      ensures Valid()
    {
      CheckGas(reading);
      if gasOk {
        Put(id, Delivered(Broadcasting));
        history := history.(broadcasts := history.broadcasts + [Broadcast(copies[id].msg.uuid, reading)]);
      } else {
        Put(id, Delivered(Withheld));
      }
      StepKeepsInv(config, old(Snapshot()), GotRecheck(id, reading));
    }

    /** The 'receipt' listener, up to its first await. */
    method OnReceiptEvent(id: CopyId, receipt: Receipt)
      requires TxAt(Snapshot(), id, Broadcasting)
      requires Valid()
      modifies this
      ensures Snapshot() == Step(config, old(Snapshot()), GotReceipt(id, receipt))
      ensures Valid()
    {
      if receipt.hasLogs {
        Put(id, Delivered(DecodingFirst(receipt)));
      } else {
        AssignEvents(NoLogs, id);
        if receipt.ok {
          Put(id, Delivered(Writing(ToPending)));
        } else {
          Put(id, Delivered(Writing(ToFailed(FailedReceipt))));
        }
      }
      StepKeepsInv(config, old(Snapshot()), GotReceipt(id, receipt));
    }

    /** The 'error' listener, up to its first await. */
    method OnErrorEvent(id: CopyId, gasShort: bool)
      requires TxAt(Snapshot(), id, Broadcasting)
      requires Valid()
      modifies this
      ensures Snapshot() == Step(config, old(Snapshot()), GotError(id, gasShort))
      ensures Valid()
    {
      if gasShort {
        gasOk := false;
        history := history.(gas := history.gas + [GasError]);
      }
      Put(id, Delivered(Writing(ToFailed(FailedInitial))));
      StepKeepsInv(config, old(Snapshot()), GotError(id, gasShort));
    }

    /** The block after decoding the first receipt's logs. */
    method AfterFirstDecode(id: CopyId, receipt: Receipt)
      requires TxAt(Snapshot(), id, DecodingFirst(receipt))
      requires Valid()
      modifies this
      ensures Snapshot() == Step(config, old(Snapshot()), GotDecoded(id))
      ensures Valid()
    {
      AssignEvents(Decoded(receipt.decoded), id);
      if receipt.ok {
        Put(id, Delivered(Writing(ToPending)));
      } else {
        Put(id, Delivered(Writing(ToFailed(FailedReceipt))));
      }
      StepKeepsInv(config, old(Snapshot()), GotDecoded(id));
    }

    /** The block after asking the chain for a confirmation: complete, retry, or fail. */
    method AfterConfirmation(id: CopyId, confirmed: bool)
      requires TxAt(Snapshot(), id, FetchingFlag)
      requires Valid()
      modifies this
      ensures Snapshot() == Step(config, old(Snapshot()), GotFlag(id, confirmed))
      ensures Valid()
    {
      var retries := copies[id].msg.retries;
      if (confirmed && config.dev) || (confirmed && retries.Tries? && retries.n < config.confirmations) {
        Put(id, Delivered(FetchingReceipt));
      } else if !confirmed && retries.Tries? && retries.n < config.confirmations {
        var currentTries := retries.n + 1;
        Put(id, Delivered(Writing(ToRetry(currentTries))));
      } else if retries.Tries? && retries.n >= config.confirmations {
        Put(id, Delivered(Writing(ToFailed(FailedTimeout))));
      } else {
        Put(id, Delivered(Writing(ToFailed(FailedPending))));
      }
      StepKeepsInv(config, old(Snapshot()), GotFlag(id, confirmed));
    }

    /** The block after fetching the final receipt. */
    method AfterFinalReceipt(id: CopyId, receipt: Receipt)
      requires TxAt(Snapshot(), id, FetchingReceipt)
      requires Valid()
      modifies this
      ensures Snapshot() == Step(config, old(Snapshot()), GotFinalReceipt(id, receipt))
      ensures Valid()
    {
      history := history.(fetched := history.fetched[copies[id].msg.uuid := receipt]);
      if receipt.hasLogs {
        Put(id, Delivered(DecodingFinal(receipt)));
      } else {
        AssignEvents(NoLogs, id);
        Put(id, Delivered(Writing(ToComplete(NoLogs))));
      }
      StepKeepsInv(config, old(Snapshot()), GotFinalReceipt(id, receipt));
    }

    /** The block after decoding the final receipt's logs. */
    method AfterFinalDecode(id: CopyId, receipt: Receipt)
      requires TxAt(Snapshot(), id, DecodingFinal(receipt))
      requires Valid()
      modifies this
      ensures Snapshot() == Step(config, old(Snapshot()), GotDecoded(id))
      ensures Valid()
    {
      AssignEvents(Decoded(receipt.decoded), id);
      Put(id, Delivered(Writing(ToComplete(eventArray))));
      StepKeepsInv(config, old(Snapshot()), GotDecoded(id));
    }

    /** The database carries out an update; updating a missing row does nothing. */
    method ApplyUpdate(id: CopyId, write: Write)
      requires TxAt(Snapshot(), id, Writing(write))
      requires Valid()
      modifies this
      ensures Snapshot() == Step(config, old(Snapshot()), Applied(id))
      ensures Valid()
    {
      var msg := copies[id].msg;
      if msg.uuid in rows {
        var row := rows[msg.uuid];
        match write {
          case ToPending => row := row.(status := Pending);
          case ToRetry(tries) => row := row.(retries := Tries(tries));
          case ToFailed(status) => row := row.(status := status);
          case ToComplete(events) => row := row.(status := Complete, events := Some(events));
          case ToAddress(address) => row := row.(address := Some(address));
          case ToProject(_) =>
        }
        rows := rows[msg.uuid := row];
      }
      if write.ToProject? {
        projects := projects[msg.project := write.address];
      }
      Put(id, Delivered(Wrote(write)));
      StepKeepsInv(config, old(Snapshot()), Applied(id));
    }

    /** Post to the callback if there is one (after a broadcast error even if not), else acknowledge. */
    method PostBack(id: CopyId, status: TxStatus, events: Option<Events>)
      requires id in copies && copies[id].msg.Tx?
      modifies this`copies, this`history
      ensures Snapshot() == Report(old(Snapshot()), id, status, events)
    {
      var transaction := copies[id].msg.(status := status);
      if transaction.callback.Some? || status.FailedInitial? {
        copies := copies[id := Copy(transaction, Delivered(Posting))];
        history := history.(posts := history.posts + [Post(transaction.uuid, transaction.callback, status, events)]);
      } else {
        Acknowledge(id);
      }
    }

    /** The block after an update: push the successor and acknowledge, continue with the next update, or report. */
    method AfterUpdate(id: CopyId, write: Write)
      requires TxAt(Snapshot(), id, Wrote(write))
      requires Valid()
      modifies this
      ensures Snapshot() == Step(config, old(Snapshot()), Resumed(id))
      ensures Valid()
    {
      var msg := copies[id].msg;
      match write {
        case ToPending =>
          PushObject(msg.(status := Pending));
          Acknowledge(id);
          assert copies == (old(copies) - {id})[Pushed(old(nextPush)) := Copy(msg.(status := Pending), Pushing)];
        case ToRetry(tries) =>
          Acknowledge(id);
          PushObject(msg.(retries := Tries(tries)));
        case ToFailed(status) =>
          PostBack(id, status, None);
        case ToComplete(_) =>
          if msg.deploy {
            Put(id, Delivered(Writing(ToAddress(eventArray))));
          } else {
            PostBack(id, Complete, Some(eventArray));
          }
        case ToAddress(_) =>
          Put(id, Delivered(Writing(ToProject(eventArray))));
        case ToProject(_) =>
          PostBack(id, Complete, Some(eventArray));
      }
      StepKeepsInv(config, old(Snapshot()), Resumed(id));
    }

    /** One push for every row in one of the statuses the restart routine selects. */
    method PushSelected() returns (pushed: map<CopyId, Copy>)
      ensures pushed == Rebuild(rows)
    {
      pushed := map[];
      var remaining := rows.Keys;
      while remaining != {}
        invariant remaining <= rows.Keys
        invariant forall u :: u in rows && u !in remaining && Reloaded(rows[u].status) ==> Rebuilt(u) in pushed
        invariant forall id :: id in pushed ==>
                    && id.Rebuilt? && id.uuid in rows && id.uuid !in remaining && Reloaded(rows[id.uuid].status)
                    && pushed[id] == Copy(RowMessage(id.uuid, rows[id.uuid]), Pushing)
        decreases remaining
      {
        var uuid :| uuid in remaining;
        remaining := remaining - {uuid};
        var row := rows[uuid];
        if row.status in {Initial, Pending, FailedGas, FailedInitial, FailedReceipt, FailedPending} {
          pushed := pushed[Rebuilt(uuid) := Copy(RowMessage(uuid, row), Pushing)];
        }
      }
      assert pushed.Keys == Rebuild(rows).Keys;
    }

    /** The restart routine: purge the queue, then push the selected rows. */
    method RabbitWarmup()
      requires Valid()
      modifies this
      ensures Snapshot() == Step(config, old(Snapshot()), Restart)
      ensures Valid()
    {
      gasOk, eventArray := true, NoLogs;
      history := history.(restarts := history.restarts + 1, gas := [], writer := None);
      copies := map[];
      copies := PushSelected();
      StepKeepsInv(config, old(Snapshot()), Restart);
    }

    // ---- The broker, the timers and the answers ----

    /** The request that inserted the row pushes its message. */
    method AfterInsert(id: CopyId)
      requires id in copies && copies[id].place.Submitting?
      requires Valid()
      modifies this
      ensures Snapshot() == Step(config, old(Snapshot()), FinishSubmit(id))
      ensures Valid()
    {
      Put(id, Pushing);
      StepKeepsInv(config, old(Snapshot()), FinishSubmit(id));
    }

    /** The health check pushes a message that is no transaction. */
    method PushHealthCheck()
      requires Valid()
      modifies this
      ensures Snapshot() == Step(config, old(Snapshot()), HealthCheck)
      ensures Valid()
    {
      PushObject(Garbled);
      StepKeepsInv(config, old(Snapshot()), HealthCheck);
    }

    method BrokerAccepts(id: CopyId)
      requires id in copies && copies[id].place.Pushing?
      requires Valid()
      modifies this
      ensures Snapshot() == Step(config, old(Snapshot()), Accept(id))
      ensures Valid()
    {
      Put(id, Queued);
      StepKeepsInv(config, old(Snapshot()), Accept(id));
    }

    /** A delivery calls the handler, which asks for the wallet. */
    method BrokerDelivers(id: CopyId)
      requires id in copies && copies[id].place.Queued?
      requires Valid()
      modifies this
      ensures Snapshot() == Step(config, old(Snapshot()), Deliver(id))
      ensures Valid()
    {
      Put(id, Delivered(FetchingWallet));
      StepKeepsInv(config, old(Snapshot()), Deliver(id));
    }

    method AfterWallet(id: CopyId)
      requires At(Snapshot(), id, FetchingWallet)
      requires Valid()
      modifies this
      ensures Snapshot() == Step(config, old(Snapshot()), GotWallet(id))
      ensures Valid()
    {
      Put(id, Delivered(FetchingBalance));
      StepKeepsInv(config, old(Snapshot()), GotWallet(id));
    }

    method AfterTimer(id: CopyId)
      requires TxAt(Snapshot(), id, Waiting)
      requires Valid()
      modifies this
      ensures Snapshot() == Step(config, old(Snapshot()), TimerFired(id))
      ensures Valid()
    {
      Put(id, Delivered(FetchingFlag));
      StepKeepsInv(config, old(Snapshot()), TimerFired(id));
    }

    /** The callback has answered, well or not. */
    method AfterPost(id: CopyId)
      requires TxAt(Snapshot(), id, Posting)
      requires Valid()
      modifies this
      ensures Snapshot() == Step(config, old(Snapshot()), Answered(id))
      ensures Valid()
    {
      Acknowledge(id);
      StepKeepsInv(config, old(Snapshot()), Answered(id));
    }

    // ---- Any sequence of blocks ----

    method HandleBroker(move: Move)
      requires move.Submit? || move.FinishSubmit? || move.HealthCheck? || move.Accept? || move.Deliver? || move.Restart?
      requires Valid()
      modifies this
      ensures Snapshot() == Step(config, old(Snapshot()), move)
      ensures Valid()
    {
      match move {
        case Submit(msg) =>
          if msg.Tx? && msg.status.Initial? && msg.uuid !in rows { Insert(msg); }
        case FinishSubmit(id) =>
          if id in copies && copies[id].place.Submitting? { AfterInsert(id); }
        case HealthCheck =>
          PushHealthCheck();
        case Accept(id) =>
          if id in copies && copies[id].place.Pushing? { BrokerAccepts(id); }
        case Deliver(id) =>
          if id in copies && copies[id].place.Queued? { BrokerDelivers(id); }
        case Restart =>
          RabbitWarmup();
      }
    }

    method HandleAnswer(move: Move)
      requires move.GotWallet? || move.GotBalance? || move.GotRecheck? || move.GotReceipt? || move.GotError?
               || move.TimerFired? || move.GotFlag? || move.GotFinalReceipt? || move.Answered?
      requires Valid()
      modifies this
      ensures Snapshot() == Step(config, old(Snapshot()), move)
      ensures Valid()
    {
      match move {
        case GotWallet(id) =>
          if id in copies && copies[id].place == Delivered(FetchingWallet) { AfterWallet(id); }
        case GotBalance(id, reading) =>
          if id in copies && copies[id].place == Delivered(FetchingBalance) { AfterBalance(id, reading); }
        case GotRecheck(id, reading) =>
          if Here(id, RecheckingBalance) { AfterRecheck(id, reading); }
        case GotReceipt(id, receipt) =>
          if Here(id, Broadcasting) { OnReceiptEvent(id, receipt); }
        case GotError(id, gasShort) =>
          if Here(id, Broadcasting) { OnErrorEvent(id, gasShort); }
        case TimerFired(id) =>
          if Here(id, Waiting) { AfterTimer(id); }
        case GotFlag(id, confirmed) =>
          if Here(id, FetchingFlag) { AfterConfirmation(id, confirmed); }
        case GotFinalReceipt(id, receipt) =>
          if Here(id, FetchingReceipt) { AfterFinalReceipt(id, receipt); }
        case Answered(id) =>
          if Here(id, Posting) { AfterPost(id); }
      }
    }

    method HandleUpdate(move: Move)
      requires move.GotDecoded? || move.Applied? || move.Resumed?
      requires Valid()
      modifies this
      ensures Snapshot() == Step(config, old(Snapshot()), move)
      ensures Valid()
    {
      var id := move.id;
      if id in copies && copies[id].msg.Tx? && copies[id].place.Delivered? {
        var point := copies[id].place.point;
        if move.GotDecoded? && point.DecodingFirst? {
          AfterFirstDecode(id, point.receipt);
        } else if move.GotDecoded? && point.DecodingFinal? {
          AfterFinalDecode(id, point.receipt);
        } else if move.Applied? && point.Writing? {
          ApplyUpdate(id, point.write);
        } else if move.Resumed? && point.Wrote? {
          AfterUpdate(id, point.write);
        }
      }
    }

    /** One block, if its handler or message is where the move expects it. */
    method Handle(move: Move)
      requires Valid()
      modifies this
      ensures Snapshot() == Step(config, old(Snapshot()), move)
      ensures Valid()
    {
      if move.Submit? || move.FinishSubmit? || move.HealthCheck? || move.Accept? || move.Deliver? || move.Restart? {
        HandleBroker(move);
      } else if move.GotDecoded? || move.Applied? || move.Resumed? {
        HandleUpdate(move);
      } else {
        HandleAnswer(move);
      }
    }

    /** Any sequence of blocks, restarts included: the object ends where the state machine does, and every unfinished
        transaction has exactly one live copy, every other none. */
    method HandleAll(moves: seq<Move>)
      requires Valid()
      modifies this
      ensures Snapshot() == Run(config, old(Snapshot()), moves)
      ensures Valid()
      ensures forall u :: |LiveCopies(Snapshot(), u)| == if LiveRow(Snapshot(), u) then 1 else 0
    {
      ghost var start := Snapshot();
      var i := 0;
      while i < |moves|
        invariant i <= |moves| && Valid()
        invariant Run(config, Snapshot(), moves[i..]) == Run(config, start, moves)
      {
        assert moves[i..][0] == moves[i] && moves[i..][1..] == moves[i + 1..];
        Handle(moves[i]);
        i := i + 1;
      }
      forall u ensures |LiveCopies(Snapshot(), u)| == if LiveRow(Snapshot(), u) then 1 else 0 {
        LiveCopiesCount(Snapshot(), u);
      }
    }
  }
}
