/** What each callback does to the project, in terms of the report's own fields, and what every status of a project
    rests on. */
module OracleOutcomes {
  import opened Transactions
  import opened OracleSpec
  import opened OracleHistory
  import opened Milestones

  // ---- Reports ----

  /** A completed report about an existing activity. */
  predicate Completes(w: World, r: Response) {
    r.status.Complete? && r.parent < |w.activities|
  }

  /** The second event of a cancellation is the flag true. */
  predicate SaysCancel(p: Payload) {
    p.Items? && |p.values| >= 2 && p.values[1] == Flag(true)
  }

  /** The second field of the last event of a check is the flag true. */
  predicate SaysPassed(p: Payload) {
    p.Items? && p.values != [] && p.values[|p.values| - 1].List? && |p.values[|p.values| - 1].items| >= 2
    && p.values[|p.values| - 1].items[1] == Flag(true)
  }

  /** Every event of a check has a second field. */
  predicate IsCheck(p: Payload) {
    p.Items? && forall i :: 0 <= i < |p.values| ==> p.values[i].List? && |p.values[i].items| >= 2
  }

  lemma CheckReads(p: Payload)
    ensures LastFlag(p).Some? <==> IsCheck(p)
    ensures IsCheck(p) ==> LastFlag(p) == Some(SaysPassed(p))
  {
  }

  // ---- Moderation ----

  /** The moderators' decision: cancelled if and only if the second event is the flag true, back to the milestones for
      anything else; the notice that moderation has ended carries the same decision. */
  lemma CancelOutcome(w: World, r: Response, now: int)
    requires Completes(w, r) && r.kind == CancelProject && r.events.Items? && |r.events.values| >= 2
    ensures var w' := OnCallback(w, r, now);
            && w'.project == w.project.(status := if SaysCancel(r.events) then Cancelled else MilestonePhase,
                                        completed := w.project.completed + [CancelProject])
            && w'.activities == w.activities[r.parent := Activity(w.activities[r.parent].kind, ActivitySuccess)]
            && w'.notes == w.notes +
                 (if CommitFinalVotes in w.project.completed then [ModerationEnded(SaysCancel(r.events))] else [])
            && w'.requests == w.requests && w'.faults == w.faults
  {
    var done := w.project.completed + [CancelProject];
    assert done[|w.project.completed|] == CancelProject;
    assert CommitFinalVotes in done <==> CommitFinalVotes in w.project.completed;
  }

  lemma ModeratorsOutcome(w: World, r: Response, now: int)
    requires Completes(w, r) && r.kind == SetModerators
    ensures var w' := OnCallback(w, r, now);
            && w'.project == w.project.(status := ModerationPhase)
            && w'.notes == w.notes + [ModerationStarted] && w'.requests == w.requests
  {
  }

  /** Committed votes make the project ready to cancel, and the decision is asked for at once. */
  lemma CommitOutcome(w: World, r: Response, now: int)
    requires Completes(w, r) && r.kind == CommitFinalVotes
    ensures var w' := OnCallback(w, r, now);
            && w'.project == w.project.(status := ReadyToCancel, completed := w.project.completed + [CommitFinalVotes])
            && w'.requests == w.requests + [Request(CancelProject, |w.activities|, 0)] && w'.notes == w.notes
            && w'.activities == w.activities[r.parent := Activity(w.activities[r.parent].kind, ActivitySuccess)]
                 + [Activity(CancelProject, ActivityPending)]
  {
  }

  // ---- Creation ----

  lemma DeployOutcome(w: World, r: Response, now: int)
    requires Completes(w, r) && r.kind == ProjectDeploy && r.events.Items?
    requires forall i :: 0 <= i < |r.events.values| ==> r.events.values[i].Text?
    ensures var w' := OnCallback(w, r, now);
            var values := r.events.values;
            && w'.project == w.project.(status := Deployed, completed := w.project.completed + [ProjectDeploy],
                                        contract := if values == [] then "" else values[|values| - 1].s)
            && w'.notes == w.notes + [ProjectCreated] && w'.requests == w.requests
  {
  }

  /** Recorded backers open the milestone phase. */
  lemma BackersOutcome(w: World, r: Response, now: int)
    requires Completes(w, r) && r.kind == SetBackers
    ensures var w' := OnCallback(w, r, now);
            && w'.project == w.project.(status := MilestonePhase, completed := w.project.completed + [SetBackers])
            && w'.requests == w.requests
  {
  }

  /** Recorded information leaves the status alone and asks for the backers to be recorded. */
  lemma InfoOutcome(w: World, r: Response, now: int)
    requires Completes(w, r) && r.kind == SetProjectInfo && w.project.funding.Some?
    ensures var w' := OnCallback(w, r, now);
            && w'.project == w.project.(completed := w.project.completed + [SetProjectInfo])
            && w'.requests == w.requests + [Request(SetBackers, |w.activities|, 0)]
  {
  }

  // ---- Milestones and funds ----

  /** A check passes if and only if the second field of its last event is the flag true; otherwise the milestone has
      failed. */
  lemma CheckOutcome(w: World, r: Response, now: int)
    requires Completes(w, r) && r.kind == CheckMilestone && IsCheck(r.events)
    ensures var w' := OnCallback(w, r, now);
            if SaysPassed(r.events) then
              w'.project.status in {w.project.status, MilestoneSuccess} && w'.requests == w.requests
              && (w.project.milestones != [] && (exists m :: m in w.project.milestones && m > now) ==>
                    w'.project.status == w.project.status && w'.notes == w.notes + [MilestoneReleased(true)])
            else
              w'.project == w.project.(status := MilestoneFailed)
              && (w.project.funding.Some? ==>
                    w'.notes == w.notes + [MilestoneReleased(false)]
                    && w'.requests == w.requests + RefundRequests(|w.activities|, w.project.funding.value.backers))
  {
    CheckReads(r.events);
    if SaysPassed(r.events) {
      if m :| m in w.project.milestones && m > now {
        var k :| 0 <= k < |w.project.milestones| && w.project.milestones[k] == m;
        assert NextIndex(w.project.milestones, now) <= k;
      }
    } else if w.project.funding.Some? {
      RefundFanOut(Succeed(w, r.parent).(project := w.project.(status := MilestoneFailed)),
                   w.project.funding.value.backers);
    }
  }

  /** Recovered funds end the schedule: the date becomes the start of year 1. */
  lemma RecoveryOutcome(w: World, r: Response, now: int)
    requires Completes(w, r) && r.kind == FailedFundRecovery && LastAmount(r.events).Some?
    ensures var w' := OnCallback(w, r, now);
            && w'.project == w.project.(status := FundsRecovered, next := -62135596800)
            && w'.notes == w.notes + [FundsReturned(LastAmount(r.events).value)] && w'.requests == w.requests
  {
  }

  /** A failed transaction marks its activity with the kind of failure, tells the backend so, and leaves the project
      alone. */
  lemma FailureOutcome(w: World, r: Response, now: int)
    requires r.parent < |w.activities| && !r.status.Initial? && !r.status.Pending? && !r.status.Complete?
    ensures var w' := OnCallback(w, r, now);
            && w'.project == w.project && w'.requests == w.requests
            && (w.activities[r.parent].kind != OtherKind(false) ==> w'.notes == w.notes + [PlainNote(r.kind, false)])
            && w'.activities == w.activities[r.parent := Activity(w.activities[r.parent].kind,
                 if r.status.FailedTimeout? then ActivityTimeout
                 else if r.status.FailedGas? then ActivityGasError
                 else if r.status.FailedInitial? then ActivityInitialError
                 else if r.status.FailedReceipt? then ActivityReceiptError
                 else ActivityPendingError)]
  {
  }

  /** A vote leaves the project alone and its activity succeeds; it is announced unless its events cannot be read. */
  lemma VoteOutcome(w: World, r: Response, now: int)
    requires Completes(w, r) && r.kind in {MilestoneVote, ModerationVote}
    ensures var w' := OnCallback(w, r, now);
            var kind := w.activities[r.parent].kind;
            && w'.project == w.project && w'.requests == w.requests
            && w'.activities == w.activities[r.parent := Activity(kind, ActivitySuccess)]
            && (kind.ModerationVote? && r.events.Items?
                && (forall v :: v in r.events.values ==> v.List? && |v.items| >= 3 && v.items[1].Text?) ==>
                  w'.notes == w.notes + [VoteNoted(kind)])
            && (kind.MilestoneVote? && r.events.Items?
                && (forall v :: v in r.events.values ==> v.List? && |v.items| >= 2 && v.items[0].Text?) ==>
                  w'.notes == w.notes + [VoteNoted(kind)])
  {
    if r.events.Items? {
      var kind := VoteKindOf(w.activities[r.parent].kind);
      if i :| 0 <= i < |r.events.values| && !IsVote(kind, r.events.values[i]) {
        assert r.events.values[i] in r.events.values;
      }
    }
  }

  /** Any other known activity succeeds and is announced; an unknown one succeeds and the handler stops. */
  lemma OtherOutcome(w: World, r: Response, now: int)
    requires Completes(w, r) && r.kind.OtherKind?
    ensures var w' := OnCallback(w, r, now);
            var kind := w.activities[r.parent].kind;
            && w'.project == w.project && w'.requests == w.requests
            && w'.activities == w.activities[r.parent := Activity(kind, ActivitySuccess)]
            && w'.notes == w.notes + (if kind == OtherKind(false) then [] else [PlainNote(r.kind, true)])
            && w'.faults == w.faults + (if kind == OtherKind(false) then [UnknownEvent] else [])
  {
  }

  // ---- Parameters ----

  /** What the last request to record information carried. */
  function LastFunding(before: Option<Funding>, events: seq<Event>): Option<Funding>
    decreases |events|
  {
    if events == [] then before
    else LastFunding(if events[0].InfoRequested? then events[0].funding else before, events[1..])
  }

  lemma CompletionKeepsFunding(w: World, r: Response, now: int)
    requires r.parent < |w.activities|
    ensures OnComplete(w, r, now).project.funding == w.project.funding
  {
    if r.kind == CheckMilestone && LastFlag(r.events) == Some(false) && w.project.funding.Some? {
      RefundFanOut(Succeed(w, r.parent).(project := w.project.(status := MilestoneFailed)),
                   w.project.funding.value.backers);
    }
  }

  lemma StepKeepsFunding(w: World, e: Event)
    ensures OStep(w, e).project.funding == if e.InfoRequested? then e.funding else w.project.funding
    ensures e.InfoRequested? ==> OStep(w, e).project.status == Deployed
  {
    if e.Reported? && Completes(w, e.response) { CompletionKeepsFunding(w, e.response, e.now); }
  }

  /** The backers and amounts a project goes by are those of the last request to record them, confirmed or not, and
      neither callbacks nor the scheduler change them; right after such a request its status is Deployed. */
  lemma {:induction false} FundingIsLastRequested(w: World, events: seq<Event>)
    ensures ORun(w, events).project.funding == LastFunding(w.project.funding, events)
    ensures events != [] && events[|events| - 1].InfoRequested? ==> ORun(w, events).project.status == Deployed
    decreases |events|
  {
    if events != [] {
      StepKeepsFunding(w, events[0]);
      FundingIsLastRequested(OStep(w, events[0]), events[1..]);
    }
  }

  // ---- Every status has its reason ----

  /** The events that can put a project into a status. */
  predicate Enters(w: World, e: Event, status: ProjectStatus) {
    match status
    case Inactive => false
    case ProjectError => false
    case Deployed => e.InfoRequested? || (e.Reported? && Completes(w, e.response) && e.response.kind == ProjectDeploy)
    case MilestonePhase =>
      e.Reported? && Completes(w, e.response) &&
      (e.response.kind == SetBackers || (e.response.kind == CancelProject && !SaysCancel(e.response.events)))
    case ModerationPhase => e.Reported? && Completes(w, e.response) && e.response.kind == SetModerators
    case ReadyToCancel => e.Reported? && Completes(w, e.response) && e.response.kind == CommitFinalVotes
    case Cancelled =>
      e.Reported? && Completes(w, e.response) && e.response.kind == CancelProject && SaysCancel(e.response.events)
    case MilestoneFailed =>
      e.Reported? && Completes(w, e.response) && e.response.kind == CheckMilestone && !SaysPassed(e.response.events)
    case MilestoneSuccess =>
      e.Reported? && Completes(w, e.response) && e.response.kind == CheckMilestone && SaysPassed(e.response.events)
    case Ended =>
      && e.Reported? && Completes(w, e.response) && e.response.kind == WithdrawFunds
      && w.project.status == MilestoneSuccess
    case Failed =>
      e.Reported? && Completes(w, e.response) && e.response.kind == RequestRefund && w.project.status == MilestoneFailed
    case FundsRecovered => e.Reported? && Completes(w, e.response) && e.response.kind == FailedFundRecovery
  }

  lemma CompletionEnters(w: World, r: Response, now: int)
    requires Completes(w, r) && r.kind != CheckMilestone
    ensures var status := OnComplete(w, r, now).project.status;
            status != w.project.status ==> Enters(w, Reported(r, now), status)
  {
  }

  lemma CheckEnters(w: World, r: Response, now: int)
    requires Completes(w, r) && r.kind == CheckMilestone
    ensures var status := OnCallback(w, r, now).project.status;
            status != w.project.status ==> Enters(w, Reported(r, now), status)
  {
    CheckReads(r.events);
    if IsCheck(r.events) { CheckOutcome(w, r, now); } else { UnreadableStops(w, r, now); }
  }

  lemma StepEnters(w: World, e: Event)
    ensures OStep(w, e).project.status != w.project.status ==> Enters(w, e, OStep(w, e).project.status)
  {
    if e.Reported? && Completes(w, e.response) {
      if e.response.kind == CheckMilestone {
        CheckEnters(w, e.response, e.now);
      } else {
        CompletionEnters(w, e.response, e.now);
      }
    }
  }

  /** Some event of the run can put the project into the status. */
  ghost predicate Entered(w: World, events: seq<Event>, status: ProjectStatus)
    decreases |events|
  {
    events != [] && (Enters(w, events[0], status) || Entered(OStep(w, events[0]), events[1..], status))
  }

  /** Over any run a project has the status it had, or one that an event of the run gave it: in particular it is
      cancelled only by a report whose decision is true, and failed only by a check that does not say passed. */
  lemma {:induction false} StatusesHaveReasons(w: World, events: seq<Event>)
    ensures var status := ORun(w, events).project.status;
            status == w.project.status || Entered(w, events, status)
    decreases |events|
  {
    if events != [] {
      StepEnters(w, events[0]);
      StatusesHaveReasons(OStep(w, events[0]), events[1..]);
    }
  }

  /** The converse for decisions: the status after a run that ends with a readable decision is that decision. */
  lemma LastDecisionDecides(w: World, events: seq<Event>, r: Response, now: int)
    requires Completes(ORun(w, events), r) && r.kind == CancelProject && r.events.Items? && |r.events.values| >= 2
    ensures ORun(w, events + [Reported(r, now)]).project.status == Cancelled <==> SaysCancel(r.events)
    ensures ORun(w, events + [Reported(r, now)]).project.status == MilestonePhase <==> !SaysCancel(r.events)
  {
    RunInParts(w, events, [Reported(r, now)]);
    assert [Reported(r, now)][1..] == [];
    CancelOutcome(ORun(w, events), r, now);
  }

  // ---- When a tick sends a check ----

  /** The date the scheduler goes by: the first milestone while the stored date is of 1970 or earlier. */
  function Scheduled(p: Project): int
    requires p.milestones != []
  {
    if p.next < 31536000 then p.milestones[0] else p.next
  }

  /** A tick sends exactly one check to a project in its milestone phase whose scheduled date has come, and nothing to
      any other; a project whose date is the start of year 1 is no longer looked at. */
  lemma TickOutcome(w: World, now: int)
    requires w.project.milestones != []
    ensures var p := w.project;
            var due := p.status == MilestonePhase && p.next > -62135596800 && now >= Scheduled(p);
            var w' := OnTick(w, now);
            && w'.requests == w.requests + (if due then [Request(CheckMilestone, |w.activities|, 0)] else [])
            && w'.activities == w.activities + (if due then [Activity(CheckMilestone, ActivityPending)] else [])
            && w'.project ==
                 (if p.status == MilestonePhase && p.next > -62135596800 then p.(next := Scheduled(p)) else p)
            && w'.notes == w.notes && w'.faults == w.faults
  {
  }

  lemma {:induction false} LastPassInTime(w: World, events: seq<Event>, clock: int)
    requires Timed(clock, events)
    ensures LastPass(w, events).Some? ==> LastPass(w, events).value >= clock
    decreases |events|
  {
    if events != [] { LastPassInTime(OStep(w, events[0]), events[1..], TimeOf(events[0])); }
  }

  /** The date a project is scheduled for after a run from its creation: the least milestone after the latest passed
      check that had one; before any, the first milestone, as long as it is an ordinary date in seconds. */
  function ScheduledDate(ms: seq<int>, pass: Option<int>): int
    requires ms != [] && (pass.Some? ==> NextIndex(ms, pass.value) < |ms|)
  {
    if pass.Some? then ms[NextIndex(ms, pass.value)]
    else if ms[0] < 31536000000 then ms[0]
    else TruncDiv(ms[0], 1000)
  }

  lemma ScheduledAfterRun(ms: seq<int>, events: seq<Event>, clock: int)
    requires ms != [] && Sorted(ms) && ms[0] > -62135596800
    requires clock >= 31536000 && Timed(clock, events) && NoRecovery(events)
    ensures var w := Created(ms).value;
            var p := ORun(w, events).project;
            && (LastPass(w, events).Some? ==> NextIndex(ms, LastPass(w, events).value) < |ms|)
            && p.milestones == ms && p.next > -62135596800
            && Scheduled(p) == ScheduledDate(ms, LastPass(w, events))
  {
    var w := Created(ms).value;
    PlaceholderHandOver(ms, events, clock);
    LastPassInTime(w, events, clock);
    RunKeepsStatusOk(w, events);
  }

  /** From creation over any timed run without fund recovery: a tick that finds the project in its milestone phase at or
      after the scheduled date always sends the check, exactly one, and an earlier one sends none. */
  lemma DueTickSendsCheck(ms: seq<int>, events: seq<Event>, clock: int, now: int)
    requires ms != [] && Sorted(ms) && ms[0] > -62135596800
    requires clock >= 31536000 && Timed(clock, events) && NoRecovery(events)
    requires ORun(Created(ms).value, events).project.status == MilestonePhase
    ensures var w := Created(ms).value;
            var w1 := ORun(w, events);
            && (LastPass(w, events).Some? ==> NextIndex(ms, LastPass(w, events).value) < |ms|)
            && OStep(w1, Ticked(now)).requests == w1.requests +
                 (if now >= ScheduledDate(ms, LastPass(w, events)) then [Request(CheckMilestone, |w1.activities|, 0)]
                  else [])
  {
    ScheduledAfterRun(ms, events, clock);
    TickOutcome(ORun(Created(ms).value, events), now);
  }
}
