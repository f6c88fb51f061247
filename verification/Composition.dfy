/** The queue and the oracle together: what a transaction's activity becomes. */
module Composition {
  import opened Transactions
  import Q = QueueSpec
  import QueueSafety
  import QueueTheorems
  import QueueLocal
  import QueueHistory
  import QueueCrashes
  import QueueRuns
  import opened OracleSpec
  import opened OracleHistory

  /** What a post's event field is to the oracle. A receipt without logs is posted as the text '[]' and a failed
      transaction without events, and neither is a list; decoded events are a list, whose entries `read` gives. */
  function FieldOf(events: Option<Q.Events>, read: seq<string> -> seq<Value>): Payload {
    if events.Some? && events.value.Decoded? then Items(read(events.value.items)) else NotList
  }

  /** The report a post delivers. */
  function ResponseOf(p: Q.Post, id: nat, kind: ActivityKind, read: seq<string> -> seq<Value>): Response {
    Response(p.status, id, kind, FieldOf(p.events, read))
  }

  /** The oracle handles posts one after the other. */
  function HandleAll(w: World, posts: seq<Q.Post>, id: nat, kind: ActivityKind, read: seq<string> -> seq<Value>,
                     now: int): World
    decreases |posts|
  {
    if posts == [] then w
    else HandleAll(OnCallback(w, ResponseOf(posts[0], id, kind, read), now), posts[1..], id, kind, read, now)
  }

  /** A finished transaction with a callback whose handler is done with its updates. */
  ghost predicate Settled(s: Q.State, u: nat) {
    && u in s.rows && !Live(s.rows[u].status) && s.rows[u].callback.Some?
    && forall copy :: QueueSafety.Holds(s, copy, u) ==> !QueueTheorems.Lagging(s.copies[copy].place)
  }

  /** In every run of the queue, restarts included, a settled transaction has been reported exactly once, with its final
      status, unless a restart lost the report. Handing all its reports to the oracle moves the activity from pending,
      once, to the transaction's status minus one, if and only if no restart lost the report and the transaction failed
      or the events posted for it can be read by the activity's handler; otherwise the activity stays pending. */
  lemma ExactlyOnceEndToEnd(c: Q.Config, moves: seq<Q.Move>, u: nat, w: World, id: nat, kind: ActivityKind,
                            read: seq<string> -> seq<Value>, now: int)
    requires Settled(Q.Run(c, Q.INITIAL_STATE, moves), u)
    requires id < |w.activities| && w.activities[id].status == ActivityPending
    ensures var s := Q.Run(c, Q.INITIAL_STATE, moves);
            var posts := QueueLocal.PostsFor(s, u);
            var w' := HandleAll(w, posts, id, kind, read, now);
            && id < |w'.activities|
            && if QueueCrashes.Lost(c, Q.INITIAL_STATE, moves, u) then posts == [] && w' == w
               else
                 && |posts| == 1 && posts[0].status == s.rows[u].status && posts[0].url == s.rows[u].callback
                 && var readable := Readable(kind, FieldOf(posts[0].events, read));
                    && (w'.activities[id].status != ActivityPending <==> !s.rows[u].status.Complete? || readable)
                    && (if s.rows[u].status.Complete? && !readable then w' == Fail(w, BadPayload)
                        else ActivityCode(w'.activities[id].status) == StatusCode(s.rows[u].status) - 1)
  {
    var s := Q.Run(c, Q.INITIAL_STATE, moves);
    QueueCrashes.ReportedOnceExactly(c, moves, u);
    QueueHistory.ReportedAtMostOnce(c, moves, u);
    var posts := QueueLocal.PostsFor(s, u);
    if !QueueCrashes.Lost(c, Q.INITIAL_STATE, moves, u) {
      var r := ResponseOf(posts[0], id, kind, read);
      assert posts[1..] == [];
      assert HandleAll(w, posts, id, kind, read, now) == OnCallback(w, r, now);
      FinishedCode(s.rows[u].status);
      CallbackSettlesActivity(w, r, now);
    }
  }

  /** Without restarts nothing is lost. */
  lemma ExactlyOnceWithoutRestarts(c: Q.Config, moves: seq<Q.Move>, u: nat, w: World, id: nat, kind: ActivityKind,
                                   read: seq<string> -> seq<Value>, now: int)
    requires Q.CrashFree(moves) && Settled(Q.Run(c, Q.INITIAL_STATE, moves), u)
    requires id < |w.activities| && w.activities[id].status == ActivityPending
    ensures var s := Q.Run(c, Q.INITIAL_STATE, moves);
            var posts := QueueLocal.PostsFor(s, u);
            var w' := HandleAll(w, posts, id, kind, read, now);
            && |posts| == 1 && id < |w'.activities|
            && (w'.activities[id].status != ActivityPending
                <==> !s.rows[u].status.Complete? || Readable(kind, FieldOf(posts[0].events, read)))
  {
    QueueCrashes.NoCrashNoLoss(c, Q.INITIAL_STATE, moves, u);
    ExactlyOnceEndToEnd(c, moves, u, w, id, kind, read, now);
  }

  /** The consequence for the kinds that read events: a completed transaction that is reported without logs always
      leaves its activity pending, and the oracle's record and notices as they were. */
  lemma NoLogsLeavesPending(c: Q.Config, moves: seq<Q.Move>, u: nat, w: World, id: nat, kind: ActivityKind,
                            read: seq<string> -> seq<Value>, now: int)
    requires Settled(Q.Run(c, Q.INITIAL_STATE, moves), u) && ReadsEvents(kind)
    requires id < |w.activities| && w.activities[id].status == ActivityPending
    requires var s := Q.Run(c, Q.INITIAL_STATE, moves);
             && s.rows[u].status.Complete?
             && forall p :: p in QueueLocal.PostsFor(s, u) ==> p.events == Some(Q.NoLogs)
    ensures var posts := QueueLocal.PostsFor(Q.Run(c, Q.INITIAL_STATE, moves), u);
            HandleAll(w, posts, id, kind, read, now) == if posts == [] then w else Fail(w, BadPayload)
  {
    ExactlyOnceEndToEnd(c, moves, u, w, id, kind, read, now);
    var posts := QueueLocal.PostsFor(Q.Run(c, Q.INITIAL_STATE, moves), u);
    if posts != [] {
      assert posts[0] in posts;
      assert FieldOf(posts[0].events, read) == NotList;
    }
  }

  lemma QuietIsSettled(m: Q.Message)
    requires QueueRuns.Sample(m) && m.retries == Q.Tries(0) && !m.deploy
    ensures var s := Q.Run(QueueRuns.CONFIG, Q.INITIAL_STATE, QueueRuns.QuietCompletion(m));
            && Settled(s, m.uuid) && s.rows[m.uuid].status.Complete?
            && QueueLocal.PostsFor(s, m.uuid) == [Q.Post(m.uuid, Some("callback"), Complete, Some(Q.NoLogs))]
    ensures Q.CrashFree(QueueRuns.QuietCompletion(m))
  {
    QueueRuns.RunsQuietCompletion(m);
    QueueLocal.OnlySnoc([], Q.Post(m.uuid, Some("callback"), Complete, Some(Q.NoLogs)), (p: Q.Post) => p.uuid, m.uuid);
    assert [] + [Q.Post(m.uuid, Some("callback"), Complete, Some(Q.NoLogs))]
           == [Q.Post(m.uuid, Some("callback"), Complete, Some(Q.NoLogs))];
  }

  /** This happens: for each of these kinds there is a run without restarts in which transaction 1 completes and is
      reported, and its activity stays pending. */
  lemma ActivityCanStayPending(w: World, id: nat, kind: ActivityKind, read: seq<string> -> seq<Value>, now: int)
    requires ReadsEvents(kind) && id < |w.activities| && w.activities[id].status == ActivityPending
    ensures exists moves: seq<Q.Move> ::
              var s := Q.Run(QueueRuns.CONFIG, Q.INITIAL_STATE, moves);
              && Q.CrashFree(moves) && Settled(s, 1) && s.rows[1].status.Complete?
              && |QueueLocal.PostsFor(s, 1)| == 1
              && HandleAll(w, QueueLocal.PostsFor(s, 1), id, kind, read, now) == Fail(w, BadPayload)
  {
    var m := Q.Tx(1, Initial, Q.Tries(0), false, Some("callback"), 1);
    QuietIsSettled(m);
    NoLogsLeavesPending(QueueRuns.CONFIG, QueueRuns.QuietCompletion(m), 1, w, id, kind, read, now);
  }

  lemma FinishedCode(status: TxStatus)
    requires !Live(status)
    ensures StatusCode(status) >= 2
  {
  }
}
