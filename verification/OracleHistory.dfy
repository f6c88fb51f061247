/** What holds of a project's record over every sequence of callbacks, requests and scheduler ticks. */
module OracleHistory {
  import opened Transactions
  import opened OracleSpec

  // ---- Refund requests ----

  function RefundActivities(n: nat): seq<Activity> {
    seq(n, _ => Activity(RequestRefund, ActivityPending))
  }

  function RefundRequests(first: nat, backers: seq<int>): seq<Request> {
    seq(|backers|, i requires 0 <= i < |backers| => Request(RequestRefund, first + i, backers[i]))
  }

  /** Asking for refunds opens one pending activity and sends one request per backer, in backer order, and touches
      nothing else. */
  lemma {:induction false} RefundFanOut(w: World, backers: seq<int>)
    ensures AskRefunds(w, backers)
            == w.(activities := w.activities + RefundActivities(|backers|),
                  requests := w.requests + RefundRequests(|w.activities|, backers))
    decreases |backers|
  {
    if backers == [] {
      assert w.activities + RefundActivities(0) == w.activities;
      assert w.requests + RefundRequests(|w.activities|, backers) == w.requests;
    } else {
      var w1 := Ask(w, RequestRefund, backers[0]);
      RefundFanOut(w1, backers[1..]);
      assert w1.activities + RefundActivities(|backers| - 1) == w.activities + RefundActivities(|backers|);
      assert w1.requests + RefundRequests(|w1.activities|, backers[1..])
             == w.requests + RefundRequests(|w.activities|, backers);
    }
  }

  // ---- The status history ----

  predicate StatusOk(p: Project) {
    && (p.status == Ended || p.status == MilestoneSuccess ==> p.completedAt.Some?)
    && (p.status == Cancelled ==> Listed(CancelProject, p.completed))
    && (p.status == ReadyToCancel ==> Listed(CommitFinalVotes, p.completed))
    && (p.status == MilestonePhase ==> Listed(SetBackers, p.completed) || Listed(CancelProject, p.completed))
  }

  /** What one event may do to the record. */
  predicate Follows(p: Project, p': Project) {
    && p.completed <= p'.completed
    && |p'.completed| <= |p.completed| + 1
    && (p.completedAt.Some? ==> p'.completedAt.Some?)
    && p'.milestones == p.milestones
    && (p'.status == Ended ==> p.status in {Ended, MilestoneSuccess})
    && (p'.status == Failed ==> p.status in {Failed, MilestoneFailed})
    && (p'.status == ProjectError ==> p.status == ProjectError)
  }

  lemma CheckKeepsStatusOk(w: World, r: Response, now: int)
    requires StatusOk(w.project) && r.parent < |w.activities|
    ensures StatusOk(OnCheck(w, r, now).project) && Follows(w.project, OnCheck(w, r, now).project)
  {
    if w.project.funding.Some? {
      RefundFanOut(Succeed(w, r.parent).(project := w.project.(status := MilestoneFailed)),
                   w.project.funding.value.backers);
    }
  }

  lemma CreationKeepsStatusOk(w: World, r: Response, now: int)
    requires StatusOk(w.project) && r.parent < |w.activities| && r.kind in {ProjectDeploy, SetBackers, SetProjectInfo}
    ensures StatusOk(OnComplete(w, r, now).project) && Follows(w.project, OnComplete(w, r, now).project)
  {
  }

  lemma ModerationKeepsStatusOk(w: World, r: Response, now: int)
    requires StatusOk(w.project) && r.parent < |w.activities|
    requires r.kind in {SetModerators, CommitFinalVotes, CancelProject}
    ensures StatusOk(OnComplete(w, r, now).project) && Follows(w.project, OnComplete(w, r, now).project)
  {
  }

  lemma FundsKeepStatusOk(w: World, r: Response, now: int)
    requires StatusOk(w.project) && r.parent < |w.activities|
    requires r.kind in {WithdrawFunds, RequestRefund, FailedFundRecovery, MilestoneVote, ModerationVote}
             || r.kind.OtherKind?
    ensures StatusOk(OnComplete(w, r, now).project) && Follows(w.project, OnComplete(w, r, now).project)
  {
  }

  lemma CallbackKeepsStatusOk(w: World, r: Response, now: int)
    requires StatusOk(w.project) && r.parent < |w.activities|
    ensures StatusOk(OnComplete(w, r, now).project) && Follows(w.project, OnComplete(w, r, now).project)
  {
    if r.kind.CheckMilestone? {
      CheckKeepsStatusOk(w, r, now);
    } else if r.kind in {ProjectDeploy, SetBackers, SetProjectInfo} {
      CreationKeepsStatusOk(w, r, now);
    } else if r.kind in {SetModerators, CommitFinalVotes, CancelProject} {
      ModerationKeepsStatusOk(w, r, now);
    } else {
      FundsKeepStatusOk(w, r, now);
    }
  }

  lemma StepKeepsStatusOk(w: World, e: Event)
    requires StatusOk(w.project)
    ensures StatusOk(OStep(w, e).project) && Follows(w.project, OStep(w, e).project)
  {
    if e.Reported? && e.response.parent < |w.activities| {
      CallbackKeepsStatusOk(w, e.response, e.now);
    }
  }

  /** Over any run the list of completed activities only grows at its end, a completion time stays, and the status
      is backed by what the list and the completion time say. */
  lemma {:induction false} RunKeepsStatusOk(w: World, events: seq<Event>)
    requires StatusOk(w.project)
    ensures StatusOk(ORun(w, events).project)
    ensures w.project.completed <= ORun(w, events).project.completed
    ensures w.project.completedAt.Some? ==> ORun(w, events).project.completedAt.Some?
    ensures ORun(w, events).project.milestones == w.project.milestones
    decreases |events|
  {
    if events != [] {
      StepKeepsStatusOk(w, events[0]);
      RunKeepsStatusOk(OStep(w, events[0]), events[1..]);
    }
  }

  lemma {:induction false} RunInParts(w: World, first: seq<Event>, rest: seq<Event>)
    ensures ORun(w, first + rest) == ORun(ORun(w, first), rest)
    decreases |first|
  {
    if first == [] {
      assert [] + rest == rest;
    } else {
      assert (first + rest)[1..] == first[1..] + rest;
      RunInParts(OStep(w, first[0]), first[1..], rest);
    }
  }

  /** The same from the creation of the project on, between any two points of its history. */
  lemma HistoryFromCreation(milestones: seq<int>, first: seq<Event>, rest: seq<Event>)
    requires milestones != []
    ensures var w := Created(milestones).value;
            var p, p' := ORun(w, first).project, ORun(w, first + rest).project;
            && StatusOk(p') && p'.milestones == milestones
            && p.completed <= p'.completed && (p.completedAt.Some? ==> p'.completedAt.Some?)
  {
    var w := Created(milestones).value;
    RunInParts(w, first, rest);
    RunKeepsStatusOk(w, first);
    RunKeepsStatusOk(ORun(w, first), rest);
  }

  /** The ended status is entered only from success, and the failed status only from a failed milestone. */
  lemma EndsAreEarned(w: World, e: Event)
    requires StatusOk(w.project)
    ensures var p, p' := w.project, OStep(w, e).project;
            && (p'.status == Ended && p.status != Ended ==>
                  p.status == MilestoneSuccess && e.Reported? && e.response.kind == WithdrawFunds)
            && (p'.status == Failed && p.status != Failed ==>
                  p.status == MilestoneFailed && e.Reported? && e.response.kind == RequestRefund)
            && (p'.status == MilestoneSuccess && p.status != MilestoneSuccess ==>
                  e.Reported? && e.response.kind == CheckMilestone)
  {
    if e.Reported? && e.response.kind.CheckMilestone? && w.project.funding.Some?
       && e.response.parent < |w.activities|
    {
      RefundFanOut(Succeed(w, e.response.parent).(project := w.project.(status := MilestoneFailed)),
                   w.project.funding.value.backers);
    }
  }

  /** A callback changes the project record only when it reports completion. */
  lemma OnlyCompletionChangesTheRecord(w: World, r: Response, now: int)
    requires OnCallback(w, r, now).project != w.project
    ensures r.status.Complete? && r.parent < |w.activities|
  {
  }

  /** Whether the handler of a kind can read an event field; kinds whose handlers read no events accept any. */
  predicate Readable(kind: ActivityKind, p: Payload) {
    match kind
    case ProjectDeploy => LastText(p).Some?
    case WithdrawFunds => LastText(p).Some?
    case CheckMilestone => LastFlag(p).Some?
    case RequestRefund => LastAmount(p).Some?
    case FailedFundRecovery => LastAmount(p).Some?
    case CancelProject => p.Items? && |p.values| >= 2
    case _ => true
  }

  /** The kinds whose handlers read events before they touch the activity. */
  predicate ReadsEvents(kind: ActivityKind) {
    kind in {ProjectDeploy, WithdrawFunds, CheckMilestone, RequestRefund, FailedFundRecovery, CancelProject}
  }

  lemma UnreadableStops(w: World, r: Response, now: int)
    requires r.parent < |w.activities| && r.status.Complete? && !Readable(r.kind, r.events)
    ensures OnCallback(w, r, now) == Fail(w, BadPayload)
  {
  }

  lemma ReadableSettles(w: World, r: Response, now: int)
    requires r.parent < |w.activities| && StatusCode(r.status) >= 2
    requires r.status.Complete? ==> Readable(r.kind, r.events)
    ensures var w' := OnCallback(w, r, now);
            r.parent < |w'.activities|
            && ActivityCode(w'.activities[r.parent].status) == StatusCode(r.status) - 1
  {
    if r.kind.CheckMilestone? && w.project.funding.Some? {
      RefundFanOut(Succeed(w, r.parent).(project := w.project.(status := MilestoneFailed)),
                   w.project.funding.value.backers);
    }
  }

  /** Whatever the kind of the activity, a delivered final callback leaves it with the transaction status minus one,
      unless the transaction completed with events its handler cannot read: then nothing at all changes. So a pending
      activity leaves that state if and only if the transaction failed or its events can be read. */
  lemma CallbackSettlesActivity(w: World, r: Response, now: int)
    requires r.parent < |w.activities| && StatusCode(r.status) >= 2
    ensures var w' := OnCallback(w, r, now);
            && r.parent < |w'.activities|
            && (if r.status.Complete? && !Readable(r.kind, r.events) then w' == Fail(w, BadPayload)
                else ActivityCode(w'.activities[r.parent].status) == StatusCode(r.status) - 1)
            && (w.activities[r.parent].status == ActivityPending ==>
                  (w'.activities[r.parent].status != ActivityPending
                   <==> !r.status.Complete? || Readable(r.kind, r.events)))
  {
    if r.status.Complete? && !Readable(r.kind, r.events) {
      UnreadableStops(w, r, now);
    } else {
      ReadableSettles(w, r, now);
    }
  }

  // ---- Refund callbacks ----

  predicate IsWithdrawal(n: Note) {
    n.FundWithdrawal?
  }

  function Withdrawals(notes: seq<Note>): seq<Note> {
    if notes == [] then []
    else Withdrawals(notes[..|notes| - 1]) + (if IsWithdrawal(notes[|notes| - 1]) then [notes[|notes| - 1]] else [])
  }

  lemma WithdrawalsSnoc(notes: seq<Note>, n: Note)
    ensures Withdrawals(notes + [n]) == Withdrawals(notes) + (if IsWithdrawal(n) then [n] else [])
  {
    assert (notes + [n])[..|notes|] == notes;
  }

  /** A refund callback that reports a refund the oracle can read. */
  predicate Refunded(r: Response) {
    r.status.Complete? && LastAmount(r.events).Some?
  }

  function ReportAll(w: World, rs: seq<Response>, now: int): World
    decreases |rs|
  {
    if rs == [] then w else ReportAll(OnCallback(w, rs[0], now), rs[1..], now)
  }

  /** However many callbacks arrive, if the record has changed then one of them reported completion. */
  lemma {:induction false} OnlyCompletionsChangeTheRecord(w: World, rs: seq<Response>, now: int)
    requires ReportAll(w, rs, now).project != w.project
    ensures exists i :: 0 <= i < |rs| && rs[i].status.Complete?
    decreases |rs|
  {
    if rs != [] {
      if OnCallback(w, rs[0], now).project != w.project {
        OnlyCompletionChangesTheRecord(w, rs[0], now);
      } else {
        OnlyCompletionsChangeTheRecord(OnCallback(w, rs[0], now), rs[1..], now);
        var i :| 0 <= i < |rs[1..]| && rs[1..][i].status.Complete?;
        assert rs[i + 1].status.Complete?;
      }
    }
  }

  /** The amount of the first refund reported. */
  function FirstRefund(rs: seq<Response>): Option<int>
    decreases |rs|
  {
    if rs == [] then None
    else if Refunded(rs[0]) then LastAmount(rs[0].events)
    else FirstRefund(rs[1..])
  }

  ghost predicate RefundReports(w: World, rs: seq<Response>) {
    forall i :: 0 <= i < |rs| ==>
      rs[i].kind == RequestRefund && rs[i].parent < |w.activities| && w.activities[rs[i].parent].kind == RequestRefund
  }

  predicate SameKinds(w: World, w': World) {
    |w'.activities| == |w.activities|
    && forall i :: 0 <= i < |w.activities| ==> w'.activities[i].kind == w.activities[i].kind
  }

  lemma RefundCompletes(w: World, r: Response)
    requires r.parent < |w.activities|
    ensures var w' := OnRefund(w, r);
            var first := LastAmount(r.events).Some? && w.project.status == MilestoneFailed;
            && SameKinds(w, w')
            && w'.project.status == (if first then Failed else w.project.status)
            && Withdrawals(w'.notes) == Withdrawals(w.notes)
                 + (if first then [FundWithdrawal(LastAmount(r.events).value)] else [])
  {
    if LastAmount(r.events).Some? { WithdrawalsSnoc(w.notes, FundWithdrawal(LastAmount(r.events).value)); }
  }

  lemma RefundFails(w: World, r: Response)
    requires r.parent < |w.activities|
    ensures var w' := OnFailure(w, r);
            SameKinds(w, w') && w'.project == w.project && Withdrawals(w'.notes) == Withdrawals(w.notes)
  {
    WithdrawalsSnoc(w.notes, PlainNote(r.kind, false));
  }

  lemma RefundStep(w: World, r: Response, now: int)
    requires r.kind == RequestRefund && r.parent < |w.activities|
    ensures var w' := OnCallback(w, r, now);
            var first := Refunded(r) && w.project.status == MilestoneFailed;
            && SameKinds(w, w')
            && w'.project.status == (if first then Failed else w.project.status)
            && Withdrawals(w'.notes) == Withdrawals(w.notes)
                 + (if first then [FundWithdrawal(LastAmount(r.events).value)] else [])
  {
    if r.status.Complete? {
      assert OnCallback(w, r, now) == OnRefund(w, r);
      RefundCompletes(w, r);
    } else if StatusCode(r.status) > 2 {
      assert OnCallback(w, r, now) == OnFailure(w, r);
      RefundFails(w, r);
    } else {
      assert OnCallback(w, r, now) == w;
    }
  }

  /** For every arrival order of refund callbacks, with any mixture of outcomes: a failed milestone becomes a failed
      project at the first refund, and exactly one fund withdrawal is announced, carrying that refund's amount. */
  lemma {:induction false} OneWithdrawalForAllRefunds(w: World, rs: seq<Response>, now: int)
    requires RefundReports(w, rs)
    ensures var w' := ReportAll(w, rs, now);
            if w.project.status == MilestoneFailed && FirstRefund(rs).Some? then
              && w'.project.status == Failed
              && Withdrawals(w'.notes) == Withdrawals(w.notes) + [FundWithdrawal(FirstRefund(rs).value)]
            else
              w'.project.status == w.project.status && Withdrawals(w'.notes) == Withdrawals(w.notes)
    decreases |rs|
  {
    if rs != [] {
      RefundStep(w, rs[0], now);
      OneWithdrawalForAllRefunds(OnCallback(w, rs[0], now), rs[1..], now);
    }
  }

  /** A failed milestone, end to end: as many refund activities as backers, in backer order, then for every order
      and outcome of their callbacks one failed project and one fund withdrawal at the first refund. */
  lemma FailedMilestoneEndToEnd(w: World, id: nat, rs: seq<Response>, now: int)
    requires id < |w.activities| && w.project.funding.Some?
    requires forall i :: 0 <= i < |rs| ==>
               rs[i].kind == RequestRefund
               && |w.activities| <= rs[i].parent < |w.activities| + |w.project.funding.value.backers|
    ensures var backers := w.project.funding.value.backers;
            var failed := OnMiss(w, id);
            var w' := ReportAll(failed, rs, now);
            && failed.project.status == MilestoneFailed
            && failed.activities == Succeed(w, id).activities + RefundActivities(|backers|)
            && failed.requests == w.requests + RefundRequests(|w.activities|, backers)
            && w'.project.status == (if FirstRefund(rs).Some? then Failed else MilestoneFailed)
            && Withdrawals(w'.notes) == Withdrawals(w.notes)
                 + (if FirstRefund(rs).Some? then [FundWithdrawal(FirstRefund(rs).value)] else [])
  {
    var backers := w.project.funding.value.backers;
    var w1 := Succeed(w, id).(project := w.project.(status := MilestoneFailed));
    RefundFanOut(w1, backers);
    WithdrawalsSnoc(w.notes, MilestoneReleased(false));
    OneWithdrawalForAllRefunds(OnMiss(w, id), rs, now);
  }

  // ---- What the list of completed activities says ----

  /** The kind a callback appends to the list, if its handler gets that far. */
  function Appended(w: World, e: Event): seq<ActivityKind> {
    if e.Reported? && e.response.status.Complete? && e.response.parent < |w.activities|
       && (e.response.kind in {SetBackers, SetProjectInfo, CommitFinalVotes}
           || (e.response.kind in {ProjectDeploy, CancelProject} && Readable(e.response.kind, e.response.events)))
    then [e.response.kind] else []
  }

  /** The kinds completed over a run, in order. */
  function Completions(w: World, events: seq<Event>): seq<ActivityKind>
    decreases |events|
  {
    if events == [] then [] else Appended(w, events[0]) + Completions(OStep(w, events[0]), events[1..])
  }

  lemma CallbackAppends(w: World, r: Response, now: int)
    requires r.parent < |w.activities| && r.status.Complete? && !r.kind.CheckMilestone?
    ensures OnComplete(w, r, now).project.completed == w.project.completed + Appended(w, Reported(r, now))
  {
  }

  lemma StepAppends(w: World, e: Event)
    ensures OStep(w, e).project.completed == w.project.completed + Appended(w, e)
  {
    if e.Reported? && e.response.parent < |w.activities| && e.response.status.Complete? {
      if !e.response.kind.CheckMilestone? {
        CallbackAppends(w, e.response, e.now);
      } else if w.project.funding.Some? {
        RefundFanOut(Succeed(w, e.response.parent).(project := w.project.(status := MilestoneFailed)),
                     w.project.funding.value.backers);
      }
    }
  }

  /** After any run the list is what it was, followed by the kinds completed in the run, in order: an activity is listed
      exactly when its completion was reported. */
  lemma {:induction false} ListIsCompletions(w: World, events: seq<Event>)
    ensures ORun(w, events).project.completed == w.project.completed + Completions(w, events)
    decreases |events|
  {
    if events == [] {
      assert w.project.completed + [] == w.project.completed;
    } else {
      StepAppends(w, events[0]);
      ListIsCompletions(OStep(w, events[0]), events[1..]);
      var before, now := w.project.completed, Appended(w, events[0]);
      var later := Completions(OStep(w, events[0]), events[1..]);
      assert (before + now) + later == before + (now + later);
    }
  }

  // ---- Creation notices ----

  function CompletionNotes(notes: seq<Note>): nat {
    if notes == [] then 0
    else CompletionNotes(notes[..|notes| - 1]) + (if notes[|notes| - 1] == ProjectCompleted then 1 else 0)
  }

  lemma CompletionNotesSnoc(notes: seq<Note>, n: Note)
    ensures CompletionNotes(notes + [n]) == CompletionNotes(notes) + (if n == ProjectCompleted then 1 else 0)
  {
    assert (notes + [n])[..|notes|] == notes;
  }

  /** A backers callback, or an info callback of a project with funding recorded, by whose time all three kinds have
      been completed. */
  predicate Announces(w: World, e: Event) {
    && e.Reported?
    && Appended(w, e) != []
    && (e.response.kind == SetBackers || (e.response.kind == SetProjectInfo && w.project.funding.Some?))
    && CreationDone(w.project.completed + [e.response.kind])
  }

  /** How many events of a run announce the completion. */
  function Due(w: World, events: seq<Event>): nat
    decreases |events|
  {
    if events == [] then 0 else (if Announces(w, events[0]) then 1 else 0) + Due(OStep(w, events[0]), events[1..])
  }

  lemma CallbackNotes(w: World, r: Response, now: int)
    requires r.parent < |w.activities| && r.status.Complete? && r.kind != CheckMilestone
    ensures CompletionNotes(OnComplete(w, r, now).notes)
            == CompletionNotes(w.notes) + (if Announces(w, Reported(r, now)) then 1 else 0)
  {
    NotesOfOneNote(w.notes, OnComplete(w, r, now).notes);
  }

  /** At most one note is added, and counting it needs only the last. */
  lemma NotesOfOneNote(notes: seq<Note>, notes': seq<Note>)
    requires notes' == notes || (|notes'| == |notes| + 1 && notes'[..|notes|] == notes)
    ensures CompletionNotes(notes') ==
            CompletionNotes(notes) + (if notes' != notes && notes'[|notes|] == ProjectCompleted then 1 else 0)
  {
    if notes' != notes {
      assert notes' == notes + [notes'[|notes|]];
      CompletionNotesSnoc(notes, notes'[|notes|]);
    }
  }

  lemma CheckNotes(w: World, r: Response, now: int)
    requires r.parent < |w.activities|
    ensures CompletionNotes(OnCheck(w, r, now).notes) == CompletionNotes(w.notes)
  {
    if w.project.funding.Some? {
      RefundFanOut(Succeed(w, r.parent).(project := w.project.(status := MilestoneFailed)),
                   w.project.funding.value.backers);
    }
    NotesOfOneNote(w.notes, OnCheck(w, r, now).notes);
  }

  lemma StepNotes(w: World, e: Event)
    ensures CompletionNotes(OStep(w, e).notes) == CompletionNotes(w.notes) + (if Announces(w, e) then 1 else 0)
  {
    if e.Reported? && e.response.parent < |w.activities| {
      if e.response.status.Complete? {
        if e.response.kind.CheckMilestone? {
          CheckNotes(w, e.response, e.now);
        } else {
          CallbackNotes(w, e.response, e.now);
        }
      } else {
        NotesOfOneNote(w.notes, OStep(w, e).notes);
      }
    }
  }

  /** Over any run whatever, the completion notices sent are exactly one for each event that announces the
      completion. */
  lemma {:induction false} NoticesAreExpected(w: World, events: seq<Event>)
    ensures CompletionNotes(ORun(w, events).notes) == CompletionNotes(w.notes) + Due(w, events)
    decreases |events|
  {
    if events != [] {
      StepNotes(w, events[0]);
      NoticesAreExpected(OStep(w, events[0]), events[1..]);
    }
  }

  /** From creation on, an event sends a notice exactly when it is a backers callback, or an info callback with funding
      recorded, and the completions of all three kinds have been reported in the history so far. */
  lemma NoticeExactly(milestones: seq<int>, before: seq<Event>, e: Event)
    requires milestones != []
    ensures var w := Created(milestones).value;
            var w1 := ORun(w, before);
            var done := Completions(w, before) + Appended(w1, e);
            CompletionNotes(ORun(w, before + [e]).notes) == CompletionNotes(w1.notes) +
              (if e.Reported? && CreationDone(done)
                  && (Appended(w1, e) == [SetBackers]
                      || (Appended(w1, e) == [SetProjectInfo] && w1.project.funding.Some?))
               then 1 else 0)
  {
    var w := Created(milestones).value;
    var w1 := ORun(w, before);
    RunInParts(w, before, [e]);
    assert [e][1..] == [];
    ListIsCompletions(w, before);
    assert [] + Completions(w, before) == Completions(w, before);
    StepNotes(w1, e);
  }

  // ---- Counting by the order of completions ----

  /** The notices a sequence of completed kinds causes, given the kinds that came before: one for each info or backers
      completion by whose time all three kinds have occurred. */
  function ExpectedNotices(before: seq<ActivityKind>, kinds: seq<ActivityKind>): nat
    decreases |kinds|
  {
    if kinds == [] then 0
    else
      (if kinds[0] in {SetProjectInfo, SetBackers} && CreationDone(before + [kinds[0]]) then 1 else 0)
      + ExpectedNotices(before + [kinds[0]], kinds[1..])
  }

  /** Every completed info callback of the run finds funding recorded. */
  ghost predicate InfosFunded(w: World, events: seq<Event>)
    decreases |events|
  {
    events != [] ==>
      (Appended(w, events[0]) == [SetProjectInfo] ==> w.project.funding.Some?)
      && InfosFunded(OStep(w, events[0]), events[1..])
  }

  lemma {:induction false} DueByOrder(w: World, events: seq<Event>)
    requires InfosFunded(w, events)
    ensures Due(w, events) == ExpectedNotices(w.project.completed, Completions(w, events))
    decreases |events|
  {
    if events != [] {
      var now, rest := Appended(w, events[0]), Completions(OStep(w, events[0]), events[1..]);
      StepAppends(w, events[0]);
      DueByOrder(OStep(w, events[0]), events[1..]);
      if now == [] {
        assert now + rest == rest && w.project.completed + now == w.project.completed;
      } else {
        assert (now + rest)[1..] == rest && (now + rest)[0] == now[0] && now == [now[0]];
      }
    }
  }

  /** The completions that matter for the creation. */
  function CreationKinds(kinds: seq<ActivityKind>): seq<ActivityKind> {
    if kinds == [] then []
    else
      (if kinds[0] in {ProjectDeploy, SetProjectInfo, SetBackers} then [kinds[0]] else [])
      + CreationKinds(kinds[1..])
  }

  predicate SameListed(a: seq<ActivityKind>, b: seq<ActivityKind>) {
    (ProjectDeploy in a <==> ProjectDeploy in b) && (SetBackers in a <==> SetBackers in b)
    && (SetProjectInfo in a <==> SetProjectInfo in b)
  }

  lemma {:induction false} OthersDoNotCount(before: seq<ActivityKind>, before': seq<ActivityKind>,
                                            kinds: seq<ActivityKind>)
    requires SameListed(before, before')
    ensures ExpectedNotices(before, kinds) == ExpectedNotices(before', CreationKinds(kinds))
    decreases |kinds|
  {
    if kinds != [] {
      var k, rest := kinds[0], CreationKinds(kinds[1..]);
      if k in {ProjectDeploy, SetProjectInfo, SetBackers} {
        assert ([k] + rest)[1..] == rest;
        OthersDoNotCount(before + [k], before' + [k], kinds[1..]);
      } else {
        assert [] + rest == rest;
        OthersDoNotCount(before + [k], before', kinds[1..]);
      }
    }
  }

  /** Whatever the order of three completions, there is one notice if the deployment is not last, none if it is. */
  lemma NoticesByOrder(kinds: seq<ActivityKind>)
    requires |kinds| == 3 && CreationDone(kinds)
    ensures ExpectedNotices([], kinds) == if kinds[2] == ProjectDeploy then 0 else 1
  {
    var two, one := kinds[1..], kinds[2..];
    assert kinds[1..][1..] == one && one[1..] == [];
    assert [] + [kinds[0]] == [kinds[0]] && [kinds[0]] + [kinds[1]] + [kinds[2]] == kinds;
    assert ExpectedNotices(kinds, []) == 0;
    assert ExpectedNotices([kinds[0]] + [kinds[1]], one) == if kinds[2] == ProjectDeploy then 0 else 1;
    assert !CreationDone([kinds[0]]) && !CreationDone([kinds[0]] + [kinds[1]]);
  }

  /** The oracle, from creation over any run in which the deployment, the information and the backers are each completed
      once, in whatever order and with whatever else in between, and the information with funding recorded: one notice
      if the deployment is not the last of the three, none if it is. */
  lemma OneNoticePerCreation(milestones: seq<int>, events: seq<Event>)
    requires milestones != [] && InfosFunded(Created(milestones).value, events)
    requires var kinds := CreationKinds(Completions(Created(milestones).value, events));
             |kinds| == 3 && CreationDone(kinds)
    ensures var w := Created(milestones).value;
            CompletionNotes(ORun(w, events).notes)
            == if CreationKinds(Completions(w, events))[2] == ProjectDeploy then 0 else 1
  {
    var w := Created(milestones).value;
    NoticesAreExpected(w, events);
    DueByOrder(w, events);
    OthersDoNotCount([], [], Completions(w, events));
    NoticesByOrder(CreationKinds(Completions(w, events)));
  }

  lemma {:induction false} NoneDueBeforeDeploy(w: World, events: seq<Event>)
    requires ProjectDeploy !in w.project.completed && ProjectDeploy !in Completions(w, events)
    ensures Due(w, events) == 0
    decreases |events|
  {
    if events != [] {
      StepAppends(w, events[0]);
      NoneDueBeforeDeploy(OStep(w, events[0]), events[1..]);
    }
  }

  /** From creation over any run that ends with the first completed deployment callback, however many info and backers
      callbacks came before, with funding or without: nobody is told. */
  lemma DeployLastSendsNone(milestones: seq<int>, events: seq<Event>, deploy: Event)
    requires milestones != [] && ProjectDeploy !in Completions(Created(milestones).value, events)
    requires deploy.Reported? && deploy.response.kind == ProjectDeploy
    ensures CompletionNotes(ORun(Created(milestones).value, events + [deploy]).notes) == 0
  {
    var w := Created(milestones).value;
    RunInParts(w, events, [deploy]);
    assert [deploy][1..] == [];
    NoticesAreExpected(w, events);
    NoneDueBeforeDeploy(w, events);
    StepNotes(ORun(w, events), deploy);
  }

  // ---- Both orders from creation ----

  function Confirm(kind: ActivityKind, id: nat, now: int): Event {
    Reported(Response(Complete, id, kind, Items([Text("address")])), now)
  }

  lemma {:induction false} RunOfFour(w: World, a: Event, b: Event, c: Event, d: Event)
    ensures ORun(w, [a, b, c, d]) == OStep(OStep(OStep(OStep(w, a), b), c), d)
  {
    assert [a, b, c, d][1..] == [b, c, d] && [b, c, d][1..] == [c, d] && [c, d][1..] == [d] && [d][1..] == [];
    var w1 := OStep(w, a);
    var w2 := OStep(w1, b);
    var w3 := OStep(w2, c);
    assert ORun(w3, [d]) == ORun(OStep(w3, d), []);
    assert ORun(w2, [c, d]) == ORun(w3, [d]);
    assert ORun(w1, [b, c, d]) == ORun(w2, [c, d]);
  }

  /** What the creation's events do to the parts of the world that count here. */
  predicate CreationEffect(w: World, w': World, kinds: seq<ActivityKind>, begun: nat, notices: nat) {
    && w'.project.completed == w.project.completed + kinds
    && |w'.activities| == |w.activities| + begun
    && w'.faults == w.faults
    && CompletionNotes(w'.notes) == CompletionNotes(w.notes) + notices
  }

  lemma DeployConfirmed(w: World, id: nat, now: int)
    requires id < |w.activities|
    ensures var w' := OStep(w, Confirm(ProjectDeploy, id, now));
            CreationEffect(w, w', [ProjectDeploy], 0, 0) && w'.project.funding == w.project.funding
  {
    assert LastText(Items([Text("address")])) == Some("address");
    StepNotes(w, Confirm(ProjectDeploy, id, now));
  }

  lemma InfoAsked(w: World, funding: Funding, now: int)
    ensures var w' := OStep(w, InfoRequested(Some(funding), now));
            CreationEffect(w, w', [], 1, 0) && w'.project.funding.Some?
  {
    assert w.project.completed + [] == w.project.completed;
  }

  lemma InfoConfirmed(w: World, id: nat, now: int)
    requires id < |w.activities| && w.project.funding.Some?
    ensures var w' := OStep(w, Confirm(SetProjectInfo, id, now));
            CreationEffect(w, w', [SetProjectInfo], 1,
                           if CreationDone(w.project.completed + [SetProjectInfo]) then 1 else 0)
  {
    StepNotes(w, Confirm(SetProjectInfo, id, now));
  }

  lemma BackersConfirmed(w: World, id: nat, now: int)
    requires id < |w.activities|
    ensures var w' := OStep(w, Confirm(SetBackers, id, now));
            CreationEffect(w, w', [SetBackers], 0,
                           if CreationDone(w.project.completed + [SetBackers]) then 1 else 0)
  {
    StepNotes(w, Confirm(SetBackers, id, now));
  }

  function InOrder(funding: Funding, now: int): seq<Event> {
    [Confirm(ProjectDeploy, 0, now), InfoRequested(Some(funding), now), Confirm(SetProjectInfo, 1, now),
     Confirm(SetBackers, 2, now)]
  }

  lemma DeployedThenAsked(w: World, funding: Funding, now: int)
    requires w.project.completed == [] && |w.activities| == 1
    ensures var w' := OStep(OStep(w, Confirm(ProjectDeploy, 0, now)), InfoRequested(Some(funding), now));
            CreationEffect(w, w', [ProjectDeploy], 1, 0) && w'.project.funding.Some?
  {
    DeployConfirmed(w, 0, now);
    InfoAsked(OStep(w, Confirm(ProjectDeploy, 0, now)), funding, now);
  }

  lemma InOrderFrom(w: World, funding: Funding, now: int)
    requires w.project.completed == [] && |w.activities| == 1
    ensures CreationEffect(w, ORun(w, InOrder(funding, now)), [ProjectDeploy, SetProjectInfo, SetBackers], 2, 1)
  {
    var w2 := OStep(OStep(w, Confirm(ProjectDeploy, 0, now)), InfoRequested(Some(funding), now));
    var w3 := OStep(w2, Confirm(SetProjectInfo, 1, now));
    RunOfFour(w, Confirm(ProjectDeploy, 0, now), InfoRequested(Some(funding), now), Confirm(SetProjectInfo, 1, now),
              Confirm(SetBackers, 2, now));
    DeployedThenAsked(w, funding, now);
    InfoConfirmed(w2, 1, now);
    BackersConfirmed(w3, 2, now);
    assert w3.project.completed == [ProjectDeploy, SetProjectInfo];
    assert w3.project.completed + [SetBackers] == [ProjectDeploy, SetProjectInfo, SetBackers];
  }

  /** Deployment, then the information request and its callback, then the callback of the activity that opened: from
      creation exactly one notice. */
  lemma InOrderSendsOne(milestones: seq<int>, funding: Funding, now: int)
    requires milestones != []
    ensures var w := Created(milestones).value;
            CreationEffect(w, ORun(w, InOrder(funding, now)), [ProjectDeploy, SetProjectInfo, SetBackers], 2, 1)
  {
    InOrderFrom(Created(milestones).value, funding, now);
  }

  function DeployLast(funding: Funding, now: int): seq<Event> {
    [InfoRequested(Some(funding), now), Confirm(SetProjectInfo, 1, now), Confirm(SetBackers, 2, now),
     Confirm(ProjectDeploy, 0, now)]
  }

  lemma DeployLastFrom(w: World, funding: Funding, now: int)
    requires w.project.completed == [] && |w.activities| == 1
    ensures CreationEffect(w, ORun(w, DeployLast(funding, now)), [SetProjectInfo, SetBackers, ProjectDeploy], 2, 0)
  {
    var w1 := OStep(w, InfoRequested(Some(funding), now));
    var w2 := OStep(w1, Confirm(SetProjectInfo, 1, now));
    var w3 := OStep(w2, Confirm(SetBackers, 2, now));
    RunOfFour(w, InfoRequested(Some(funding), now), Confirm(SetProjectInfo, 1, now), Confirm(SetBackers, 2, now),
              Confirm(ProjectDeploy, 0, now));
    InfoAsked(w, funding, now);
    InfoConfirmed(w1, 1, now);
    BackersConfirmed(w2, 2, now);
    DeployConfirmed(w3, 0, now);
    assert w2.project.completed == [SetProjectInfo];
    assert w3.project.completed == [SetProjectInfo, SetBackers];
    assert w3.project.completed + [ProjectDeploy] == [SetProjectInfo, SetBackers, ProjectDeploy];
  }

  /** The same callbacks with the deployment's last: everything is completed and nobody is told. */
  lemma DeployLastOccurs(milestones: seq<int>, funding: Funding, now: int)
    requires milestones != []
    ensures var w := Created(milestones).value;
            CreationEffect(w, ORun(w, DeployLast(funding, now)), [SetProjectInfo, SetBackers, ProjectDeploy], 2, 0)
  {
    DeployLastFrom(Created(milestones).value, funding, now);
  }

  // ---- Withdrawals ----

  /** The amount a withdrawal's events carry. */
  function Withdrawn(p: Payload): Option<int> {
    if LastText(p).Some? then Some(Atoi(LastText(p).value)) else None
  }

  lemma WithdrawalStep(w: World, r: Response, now: int)
    requires r.parent < |w.activities| && r.kind == WithdrawFunds && r.status.Complete?
    requires Withdrawn(r.events).Some? && w.project.status == MilestoneSuccess
    ensures var w' := OnCallback(w, r, now);
            w'.project == w.project.(status := Ended) && w'.notes == w.notes + [FundWithdrawal(0)]
  {
  }

  /** A completed withdrawal ends a successful project and announces zero. The announcement is the withdrawn amount if
      and only if nothing was withdrawn. */
  lemma WithdrawalAnnouncesZero(w: World, r: Response, now: int)
    requires r.parent < |w.activities| && r.kind == WithdrawFunds && r.status.Complete?
    requires Withdrawn(r.events).Some? && w.project.status == MilestoneSuccess
    ensures var w' := OnCallback(w, r, now);
            && w'.project == w.project.(status := Ended)
            && Withdrawals(w'.notes) == Withdrawals(w.notes) + [FundWithdrawal(0)]
            && (Withdrawals(w'.notes) == Withdrawals(w.notes) + [FundWithdrawal(Withdrawn(r.events).value)]
                <==> Withdrawn(r.events).value == 0)
  {
    WithdrawalStep(w, r, now);
    WithdrawalsSnoc(w.notes, FundWithdrawal(0));
    SameLast(Withdrawals(w.notes), FundWithdrawal(0), FundWithdrawal(Withdrawn(r.events).value));
  }

  lemma SameLast(notes: seq<Note>, a: Note, b: Note)
    ensures notes + [a] == notes + [b] <==> a == b
  {
    assert (notes + [a])[|notes|] == a && (notes + [b])[|notes|] == b;
  }

  // ---- Requests over runs ----

  /** How many requests of a kind have been sent. */
  function Sent(requests: seq<Request>, kind: ActivityKind): nat {
    if requests == [] then 0
    else Sent(requests[..|requests| - 1], kind) + (if requests[|requests| - 1].kind == kind then 1 else 0)
  }

  lemma SentSnoc(requests: seq<Request>, r: Request, kind: ActivityKind)
    ensures Sent(requests + [r], kind) == Sent(requests, kind) + (if r.kind == kind then 1 else 0)
  {
    assert (requests + [r])[..|requests|] == requests;
  }

  lemma {:induction false} RefundsSend(w: World, backers: seq<int>, kind: ActivityKind)
    requires kind != RequestRefund
    ensures Sent(AskRefunds(w, backers).requests, kind) == Sent(w.requests, kind)
    decreases |backers|
  {
    if backers != [] {
      SentSnoc(w.requests, Request(RequestRefund, |w.activities|, backers[0]), kind);
      RefundsSend(Ask(w, RequestRefund, backers[0]), backers[1..], kind);
    }
  }

  /** Kinds of requests that no callback sends. */
  predicate NeverChained(kind: ActivityKind) {
    kind in {WithdrawFunds, CheckMilestone}
  }

  lemma CheckSends(w: World, r: Response, now: int, kind: ActivityKind)
    requires NeverChained(kind) && r.parent < |w.activities|
    ensures Sent(OnCheck(w, r, now).requests, kind) == Sent(w.requests, kind)
  {
    if w.project.funding.Some? {
      RefundsSend(Succeed(w, r.parent).(project := w.project.(status := MilestoneFailed)),
                  w.project.funding.value.backers, kind);
    }
  }

  lemma CompletionSends(w: World, r: Response, now: int, kind: ActivityKind)
    requires NeverChained(kind) && r.parent < |w.activities| && !r.kind.CheckMilestone?
    ensures Sent(OnComplete(w, r, now).requests, kind) == Sent(w.requests, kind)
  {
    SentSnoc(w.requests, Request(SetBackers, |w.activities|, 0), kind);
    SentSnoc(w.requests, Request(CancelProject, |w.activities|, 0), kind);
  }

  lemma CallbackSends(w: World, r: Response, now: int, kind: ActivityKind)
    requires NeverChained(kind)
    ensures Sent(OnCallback(w, r, now).requests, kind) == Sent(w.requests, kind)
  {
    if r.parent < |w.activities| && r.status.Complete? {
      if r.kind.CheckMilestone? { CheckSends(w, r, now, kind); } else { CompletionSends(w, r, now, kind); }
    }
  }

  predicate AsksFor(e: Event, kind: ActivityKind) {
    e.Requested? && e.kind == kind
  }

  /** The requests of a kind that were made from outside. */
  function AskedFor(events: seq<Event>, kind: ActivityKind): nat
    decreases |events|
  {
    if events == [] then 0 else (if AsksFor(events[0], kind) then 1 else 0) + AskedFor(events[1..], kind)
  }

  lemma StepSendsWithdrawals(w: World, e: Event)
    ensures Sent(OStep(w, e).requests, WithdrawFunds)
            == Sent(w.requests, WithdrawFunds) + (if AsksFor(e, WithdrawFunds) then 1 else 0)
  {
    match e
    case Reported(r, now) => CallbackSends(w, r, now, WithdrawFunds);
    case Requested(kind, user, _) => SentSnoc(w.requests, Request(kind, |w.activities|, user), WithdrawFunds);
    case InfoRequested(_, _) => SentSnoc(w.requests, Request(SetProjectInfo, |w.activities|, 0), WithdrawFunds);
    case Ticked(_) => SentSnoc(w.requests, Request(CheckMilestone, |w.activities|, 0), WithdrawFunds);
  }

  /** Over any run the withdrawal requests sent are exactly those made from outside: neither a passed milestone nor
      anything else the oracle does by itself sends one. */
  lemma {:induction false} WithdrawalsAreOnlyAskedFor(w: World, events: seq<Event>)
    ensures Sent(ORun(w, events).requests, WithdrawFunds)
            == Sent(w.requests, WithdrawFunds) + AskedFor(events, WithdrawFunds)
    decreases |events|
  {
    if events != [] {
      StepSendsWithdrawals(w, events[0]);
      WithdrawalsAreOnlyAskedFor(OStep(w, events[0]), events[1..]);
    }
  }
}
