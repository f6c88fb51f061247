/** The oracle's callback functions and its scheduler as they are written: they read, update and store the project
    record in place, loop over events, milestones, backers and projects, and stop early where the original stops.
    Each is proved to be the step of `OracleSpec` that the whole-run results are about. */
module OracleService {
  import opened Transactions
  import opened CivilTime
  import opened OracleSpec
  import opened OracleHistory

  // ---- Reading event lists ----

  method ReadLastFlag(p: Payload) returns (result: Option<bool>)
    ensures result == LastFlag(p)
  {
    if p.NotList? { return None; }
    var flag := false;
    var i := 0;
    while i < |p.values|
      invariant i <= |p.values|
      invariant forall k :: 0 <= k < i ==> HasField(p.values[k], 1)
      invariant i == 0 ==> !flag
      invariant i > 0 ==> flag == (p.values[i - 1].items[1].Flag? && p.values[i - 1].items[1].b)
    {
      if !HasField(p.values[i], 1) { return None; }
      var field := p.values[i].items[1];
      flag := field.Flag? && field.b;
      i := i + 1;
    }
    return Some(flag);
  }

  method ReadLastAmount(p: Payload) returns (result: Option<int>)
    ensures result == LastAmount(p)
  {
    if p.NotList? { return None; }
    var amount := 0;
    var i := 0;
    while i < |p.values|
      invariant i <= |p.values|
      invariant forall k :: 0 <= k < i ==> HasAmount(p.values[k])
      invariant amount == if i == 0 then 0 else Atoi(p.values[i - 1].items[0].s)
    {
      if !HasAmount(p.values[i]) { return None; }
      amount := Atoi(p.values[i].items[0].s);
      i := i + 1;
    }
    return Some(amount);
  }

  method ReadLastText(p: Payload) returns (result: Option<string>)
    ensures result == LastText(p)
  {
    if p.NotList? { return None; }
    var text := "";
    var i := 0;
    while i < |p.values|
      invariant i <= |p.values|
      invariant forall k :: 0 <= k < i ==> p.values[k].Text?
      invariant text == if i == 0 then "" else p.values[i - 1].s
    {
      if !p.values[i].Text? { return None; }
      text := p.values[i].s;
      i := i + 1;
    }
    return Some(text);
  }

  /** Every event is read; the last one stays. */
  method ReadVotes(kind: VoteKind, p: Payload) returns (last: Option<(int, bool)>)
    ensures last == LastVote(kind, p)
  {
    var beneficiary, voteBool := 0, false;
    if kind.AnyKind? { return Some((beneficiary, voteBool)); }
    if p.NotList? { return None; }
    var i := 0;
    while i < |p.values|
      invariant i <= |p.values|
      invariant forall k :: 0 <= k < i ==> IsVote(kind, p.values[k])
      invariant (beneficiary, voteBool) == if i == 0 then (0, false) else VoteOf(kind, p.values[i - 1])
    {
      if !IsVote(kind, p.values[i]) { return None; }
      var item := p.values[i].items;
      if kind.MilestoneKind? {
        beneficiary := Atoi(item[0].s);
        voteBool := item[1].Flag? && item[1].b;
      } else {
        beneficiary := Atoi(item[1].s);
      }
      i := i + 1;
    }
    return Some((beneficiary, voteBool));
  }

  /** Whether an activity is listed. */
  method CheckCompletedActivity(check: ActivityKind, completed: seq<ActivityKind>) returns (found: bool)
    ensures found <==> Listed(check, completed)
  {
    var i := 0;
    while i < |completed|
      invariant i <= |completed|
      invariant check !in completed[..i]
    {
      if completed[i] == check { return true; }
      i := i + 1;
    }
    return false;
  }

  /** Whether all required activities are listed; the loop stops at the first that is not. */
  method AllCompleted(required: seq<ActivityKind>, completed: seq<ActivityKind>) returns (done: bool)
    ensures done <==> forall k :: k in required ==> Listed(k, completed)
  {
    done := true;
    var i := 0;
    while i < |required|
      invariant i <= |required|
      invariant done ==> forall k :: k in required[..i] ==> Listed(k, completed)
      invariant !done ==> exists k :: k in required && !Listed(k, completed)
    {
      done := CheckCompletedActivity(required[i], completed);
      if !done {
        assert required[i] in required;
        break;
      }
      i := i + 1;
    }
  }

  // ---- The scheduler's tests ----

  /** The test on the calendar year. */
  method IsPlaceholder(date: int) returns (placeholder: bool)
    requires InRange(date)
    ensures placeholder <==> date < 31536000
  {
    YearAtMost1970(date);
    placeholder := FromUnix(date).year <= 1970;
  }

  /** The test on calendar text. */
  method IsDue(now: int, date: int) returns (due: bool)
    requires InRange(now) && InRange(date)
    ensures due <==> now >= date
  {
    DueTestIsComparison(now, date);
    due := !TextLess(Format(FromUnix(now)), Format(FromUnix(date)));
  }

  // ---- Dates the calendar text can write ----

  predicate DatesOk(p: Project) {
    InRange(p.next) && forall m :: m in p.milestones ==> InRange(m)
  }

  predicate TicksInRange(events: seq<Event>) {
    forall i :: 0 <= i < |events| ==> events[i].Ticked? ==> InRange(events[i].now)
  }

  lemma CallbackKeepsDates(w: World, r: Response, now: int)
    requires DatesOk(w.project) && r.parent < |w.activities| && r.kind != CheckMilestone
    ensures DatesOk(OnComplete(w, r, now).project)
  {
  }

  lemma CheckKeepsDates(w: World, r: Response, now: int)
    requires DatesOk(w.project) && r.parent < |w.activities|
    ensures DatesOk(OnCheck(w, r, now).project)
  {
    if w.project.funding.Some? {
      RefundFanOut(Succeed(w, r.parent).(project := w.project.(status := MilestoneFailed)),
                   w.project.funding.value.backers);
    }
  }

  /** No event ever stores a date outside the range of the milestones and of the first date. */
  lemma StepKeepsDates(w: World, e: Event)
    requires DatesOk(w.project)
    ensures DatesOk(OStep(w, e).project)
  {
    if e.Reported? && e.response.parent < |w.activities| && e.response.status.Complete? {
      if e.response.kind == CheckMilestone {
        CheckKeepsDates(w, e.response, e.now);
      } else {
        CallbackKeepsDates(w, e.response, e.now);
      }
    }
  }

  // ---- One project ----

  class ProjectOracle {
    var project: Project
    var activities: seq<Activity>
    var notes: seq<Note>
    var requests: seq<Request>
    var faults: seq<Fault>

    ghost function State(): World
      reads this
    {
      World(project, activities, notes, requests, faults)
    }

    /** Store a new project with its placeholder date and ask for its deployment. */
    constructor (milestones: seq<int>)
      requires milestones != []
      ensures Some(State()) == Created(milestones)
    {
      project := Project(Inactive, TruncDiv(milestones[0], 1000), None, [], "", milestones, None);
      activities := [Activity(ProjectDeploy, ActivityPending)];
      requests := [Request(ProjectDeploy, 0, 0)];
      notes, faults := [], [];
      new;
      assert [] + [Activity(ProjectDeploy, ActivityPending)] == activities;
      assert [] + [Request(ProjectDeploy, 0, 0)] == requests;
    }

    method SetSuccess(id: nat)
      requires id < |activities|
      modifies this`activities
      ensures State() == Succeed(old(State()), id)
    {
      activities := activities[id := activities[id].(status := ActivitySuccess)];
    }

    method PostBackend(note: Note)
      modifies this`notes
      ensures State() == Notify(old(State()), note)
    {
      notes := notes + [note];
    }

    method Stop(fault: Fault)
      modifies this`faults
      ensures State() == Fail(old(State()), fault)
    {
      faults := faults + [fault];
    }

    /** Open an activity and send its request to the blockchain service. */
    method Open(kind: ActivityKind, user: int)
      modifies this`activities, this`requests
      ensures State() == Ask(old(State()), kind, user)
    {
      requests := requests + [Request(kind, |activities|, user)];
      activities := activities + [Activity(kind, ActivityPending)];
    }

    method ProjectCreateCallback(r: Response)
      requires r.parent < |activities|
      modifies this
      ensures State() == OnDeploy(old(State()), r)
    {
      var address := ReadLastText(r.events);
      if address.None? { Stop(BadPayload); return; }
      SetSuccess(r.parent);
      project := project.(status := Deployed, contract := address.value,
                          completed := project.completed + [ProjectDeploy]);
      PostBackend(ProjectCreated);
    }

    method SetBackersCallback(r: Response)
      requires r.parent < |activities|
      modifies this
      ensures State() == OnBackers(old(State()), r)
    {
      SetSuccess(r.parent);
      project := project.(status := MilestonePhase, completed := project.completed + [SetBackers]);
      var required := [ProjectDeploy, SetBackers, SetProjectInfo];
      var done := AllCompleted(required, project.completed);
      assert required[0] in required && required[1] in required && required[2] in required;
      if done { PostBackend(ProjectCompleted); }
    }

    method SetProjectInfoCallback(r: Response)
      requires r.parent < |activities|
      modifies this
      ensures State() == OnInfo(old(State()), r)
    {
      SetSuccess(r.parent);
      project := project.(completed := project.completed + [SetProjectInfo]);
      var required := [ProjectDeploy, SetBackers, SetProjectInfo];
      var done := AllCompleted(required, project.completed);
      assert required[0] in required && required[1] in required && required[2] in required;
      if project.funding.None? { Stop(NoFunding); return; }
      Open(SetBackers, 0);
      if done { PostBackend(ProjectCompleted); }
    }

    method SetModeratorsCallback(r: Response)
      requires r.parent < |activities|
      modifies this
      ensures State() == OnModerators(old(State()), r)
    {
      SetSuccess(r.parent);
      project := project.(status := ModerationPhase);
      PostBackend(ModerationStarted);
    }

    method CommitModerationVotesCallback(r: Response)
      requires r.parent < |activities|
      modifies this
      ensures State() == OnCommit(old(State()), r)
    {
      SetSuccess(r.parent);
      project := project.(status := ReadyToCancel, completed := project.completed + [CommitFinalVotes]);
      Open(CancelProject, 0);
    }

    method CancelProjectCallback(r: Response)
      requires r.parent < |activities|
      modifies this
      ensures State() == OnCancel(old(State()), r)
    {
      if r.events.NotList? || |r.events.values| < 2 { Stop(BadPayload); return; }
      var result := r.events.values[1].Flag? && r.events.values[1].b;
      SetSuccess(r.parent);
      if result {
        project := project.(status := Cancelled, completed := project.completed + [CancelProject]);
      } else {
        project := project.(status := MilestonePhase, completed := project.completed + [CancelProject]);
      }
      var required := [CommitFinalVotes, CancelProject];
      var done := AllCompleted(required, project.completed);
      assert required[0] in required && required[1] in required;
      if done { PostBackend(ModerationEnded(result)); }
    }

    /** Move the next date to the first later milestone, if there is one. */
    method FillNext(now: int) returns (filled: bool)
      modifies this`project
      ensures var i := NextIndex(old(project).milestones, now);
              filled == (i < |old(project).milestones|)
              && project == if filled then old(project).(next := old(project).milestones[i]) else old(project)
    {
      filled := false;
      var milestones := project.milestones;
      var i := 0;
      while i < |milestones|
        invariant i <= |milestones| && milestones == old(project).milestones
        invariant !filled ==> project == old(project) && forall k :: 0 <= k < i ==> milestones[k] <= now
        invariant filled ==> NextIndex(milestones, now) < i
                             && project == old(project).(next := milestones[NextIndex(milestones, now)])
      {
        if milestones[i] > now && !filled {
          project := project.(next := milestones[i]);
          filled := true;
        }
        i := i + 1;
      }
    }

    /** A passed check: next milestone, completion, or the branch that gives up. */
    method MilestonePassed(id: nat, now: int)
      requires id < |activities|
      modifies this
      ensures State() == OnPass(old(State()), id, now)
    {
      SetSuccess(id);
      var filled := FillNext(now);
      if !filled {
        if |project.milestones| == 0 { Stop(NoMilestones); return; }
        var last := project.milestones[|project.milestones| - 1];
        if |project.milestones| == 1 {
          project := project.(completedAt := Some(now), status := MilestoneSuccess);
        } else if SameStamp(last, project.next) {
          project := project.(completedAt := Some(now), status := MilestoneSuccess);
        } else {
          Stop(LostMilestone);
          return;
        }
      }
      PostBackend(MilestoneReleased(true));
    }

    /** Ask for a refund for every backer. */
    method DistributeRefunds(backers: seq<int>)
      modifies this`activities, this`requests
      ensures State() == AskRefunds(old(State()), backers)
    {
      ghost var w := State();
      var i := 0;
      while i < |backers|
        invariant i <= |backers|
        invariant AskRefunds(State(), backers[i..]) == AskRefunds(w, backers)
      {
        assert backers[i..][0] == backers[i] && backers[i..][1..] == backers[i + 1..];
        Open(RequestRefund, backers[i]);
        i := i + 1;
      }
    }

    method MilestoneMissed(id: nat)
      requires id < |activities|
      modifies this
      ensures State() == OnMiss(old(State()), id)
    {
      project := project.(status := MilestoneFailed);
      SetSuccess(id);
      if project.funding.None? { Stop(NoFunding); return; }
      DistributeRefunds(project.funding.value.backers);
      PostBackend(MilestoneReleased(false));
    }

    method CheckMilestoneCallback(r: Response, now: int)
      requires r.parent < |activities|
      modifies this
      ensures State() == OnCheck(old(State()), r, now)
    {
      var result := ReadLastFlag(r.events);
      if result.None? { Stop(BadPayload); return; }
      if result.value {
        MilestonePassed(r.parent, now);
      } else {
        MilestoneMissed(r.parent);
      }
    }

    /** The loop declares a variable of its own with the name of the outer one, which therefore keeps its zero. */
    method WithdrawFundsCallback(r: Response)
      requires r.parent < |activities|
      modifies this
      ensures State() == OnWithdraw(old(State()), r)
    {
      var withdrawalAmount := 0;
      if r.events.NotList? { Stop(BadPayload); return; }
      var i := 0;
      while i < |r.events.values|
        invariant i <= |r.events.values|
        invariant State() == old(State())
        invariant forall k :: 0 <= k < i ==> r.events.values[k].Text?
      {
        if !r.events.values[i].Text? { Stop(BadPayload); return; }
        var withdrawalAmount := r.events.values[i].s;
        i := i + 1;
      }
      SetSuccess(r.parent);
      if project.status == MilestoneSuccess {
        project := project.(status := Ended);
        PostBackend(FundWithdrawal(withdrawalAmount));
      }
    }

    method RequestRefundCallback(r: Response)
      requires r.parent < |activities|
      modifies this
      ensures State() == OnRefund(old(State()), r)
    {
      var amount := ReadLastAmount(r.events);
      if amount.None? { Stop(BadPayload); return; }
      SetSuccess(r.parent);
      if project.status == MilestoneFailed {
        project := project.(status := Failed);
        PostBackend(FundWithdrawal(amount.value));
      }
    }

    method FailedFundRecoveryCallback(r: Response)
      requires r.parent < |activities|
      modifies this
      ensures State() == OnRecovery(old(State()), r)
    {
      var amount := ReadLastAmount(r.events);
      if amount.None? { Stop(BadPayload); return; }
      SetSuccess(r.parent);
      project := project.(next := ZERO_TIME, status := FundsRecovered);
      PostBackend(FundsReturned(amount.value));
    }

    method VoteCallback(r: Response)
      requires r.parent < |activities|
      modifies this
      ensures State() == OnVote(old(State()), r)
    {
      var kind := activities[r.parent].kind;
      SetSuccess(r.parent);
      var last := ReadVotes(VoteKindOf(kind), r.events);
      if last.None? { Stop(BadPayload); return; }
      PostBackend(VoteNoted(kind));
    }

    method Dispatch(r: Response, now: int)
      requires r.parent < |activities|
      modifies this
      ensures State() == OnComplete(old(State()), r, now)
    {
      match r.kind {
        case ProjectDeploy => ProjectCreateCallback(r);
        case SetBackers => SetBackersCallback(r);
        case SetProjectInfo => SetProjectInfoCallback(r);
        case SetModerators => SetModeratorsCallback(r);
        case CommitFinalVotes => CommitModerationVotesCallback(r);
        case CancelProject => CancelProjectCallback(r);
        case MilestoneVote => VoteCallback(r);
        case ModerationVote => VoteCallback(r);
        case CheckMilestone => CheckMilestoneCallback(r, now);
        case WithdrawFunds => WithdrawFundsCallback(r);
        case RequestRefund => RequestRefundCallback(r);
        case FailedFundRecovery => FailedFundRecoveryCallback(r);
        case OtherKind(_) =>
          var kind := activities[r.parent].kind;
          SetSuccess(r.parent);
          if kind == OtherKind(false) { Stop(UnknownEvent); } else { PostBackend(PlainNote(r.kind, true)); }
      }
    }

    /** The callback handler. */
    method ProjectCallbackHandler(r: Response, now: int)
      modifies this
      ensures State() == OnCallback(old(State()), r, now)
    {
      if r.parent >= |activities| { Stop(UnknownActivity); return; }
      if StatusCode(r.status) <= 2 {
        if r.status.Complete? { Dispatch(r, now); }
      } else {
        var a := activities[r.parent];
        match r.status {
          case FailedTimeout => a := a.(status := ActivityTimeout);
          case FailedGas => a := a.(status := ActivityGasError);
          case FailedInitial => a := a.(status := ActivityInitialError);
          case FailedReceipt => a := a.(status := ActivityReceiptError);
          case FailedPending => a := a.(status := ActivityPendingError);
          case _ =>
        }
        activities := activities[r.parent := a];
        if a.kind == OtherKind(false) { Stop(UnknownEvent); } else { PostBackend(PlainNote(r.kind, false)); }
      }
    }

    /** Rewrite the parameters and ask for the project information to be recorded. */
    method SetProjectInfoRequest(funding: Option<Funding>)
      modifies this
      ensures State() == OnInfoRequest(old(State()), funding)
    {
      project := project.(status := Deployed, funding := funding);
      Open(SetProjectInfo, 0);
    }

    /** Any other request opens an activity and sends it; a vote opens a second activity after sending. */
    method MakeRequest(kind: ActivityKind, user: int)
      modifies this
      ensures State() == OnRequest(old(State()), kind, user)
    {
      if kind.SetProjectInfo? || kind.ProjectDeploy? { return; }
      Open(kind, user);
      if kind.MilestoneVote? || kind.ModerationVote? {
        activities := activities + [Activity(kind, ActivityPending)];
      }
    }

    /** One project of the scheduler's loop, with the original's tests on calendar text. */
    method MilestoneInterval(now: int)
      requires InRange(now) && InRange(project.next)
      requires project.milestones != [] ==> InRange(project.milestones[0])
      modifies this
      ensures State() == OnTick(old(State()), now)
    {
      var selected := project.status in
        {Deployed, MilestonePhase, ModerationPhase, ReadyToCancel, FundsRecovered, MilestoneSuccess, Failed}
        && project.next > ZERO_TIME;
      if selected && project.status == MilestonePhase {
        var placeholder := IsPlaceholder(project.next);
        if placeholder {
          if |project.milestones| == 0 { Stop(NoMilestones); return; }
          project := project.(next := project.milestones[0]);
        }
        var due := IsDue(now, project.next);
        if due && project.status != ModerationPhase { Open(CheckMilestone, 0); }
      }
    }

    method Handle(e: Event)
      requires DatesOk(project) && (e.Ticked? ==> InRange(e.now))
      modifies this
      ensures State() == OStep(old(State()), e) && DatesOk(project)
    {
      match e {
        case Reported(r, now) => ProjectCallbackHandler(r, now);
        case Requested(kind, user, _) => MakeRequest(kind, user);
        case InfoRequested(funding, _) => SetProjectInfoRequest(funding);
        case Ticked(now) => MilestoneInterval(now);
      }
      StepKeepsDates(old(State()), e);
    }

    /** Any sequence of callbacks, requests and ticks: the object ends where the state machine does, its list of
        completed activities has only grown, by exactly the completions reported, and its status is backed by them. */
    method HandleAll(events: seq<Event>)
      requires DatesOk(project) && TicksInRange(events) && StatusOk(project)
      modifies this
      ensures State() == ORun(old(State()), events)
      ensures DatesOk(project) && StatusOk(project)
      ensures project.completed == old(project.completed) + Completions(old(State()), events)
      ensures CompletionNotes(notes) == CompletionNotes(old(notes)) + Due(old(State()), events)
    {
      ghost var w := State();
      var i := 0;
      while i < |events|
        invariant i <= |events| && DatesOk(project)
        invariant ORun(State(), events[i..]) == ORun(w, events)
      {
        assert events[i..][0] == events[i] && events[i..][1..] == events[i + 1..];
        Handle(events[i]);
        i := i + 1;
      }
      RunKeepsStatusOk(w, events);
      ListIsCompletions(w, events);
      NoticesAreExpected(w, events);
    }
  }

  /** The scheduler's loop over distinct projects: every project gets its own tick and no other's. */
  method TickAll(oracles: seq<ProjectOracle>, now: int)
    requires forall i, j :: 0 <= i < j < |oracles| ==> oracles[i] != oracles[j]
    requires InRange(now)
    requires forall o :: o in oracles ==>
               InRange(o.project.next) && (o.project.milestones != [] ==> InRange(o.project.milestones[0]))
    modifies oracles
    ensures forall i :: 0 <= i < |oracles| ==> oracles[i].State() == OnTick(old(oracles[i].State()), now)
  {
    var i := 0;
    while i < |oracles|
      invariant i <= |oracles|
      invariant forall k :: 0 <= k < i ==> oracles[k].State() == OnTick(old(oracles[k].State()), now)
      invariant forall k :: i <= k < |oracles| ==> oracles[k].State() == old(oracles[k].State())
    {
      assert oracles[i].State() == old(oracles[i].State());
      assert oracles[i] in oracles;
      oracles[i].MilestoneInterval(now);
      i := i + 1;
    }
  }
}
