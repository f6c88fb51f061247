/** The oracle's record of one project as a state machine: the callbacks from the blockchain service, the requests
    that open activities, and the milestone scheduler. */
module OracleSpec {
  import opened Transactions
  import opened CivilTime

  datatype ActivityKind =
    | ProjectDeploy
    | SetBackers
    | SetProjectInfo
    | SetModerators
    | CommitFinalVotes
    | CancelProject
    | MilestoneVote
    | ModerationVote
    | CheckMilestone
    | WithdrawFunds
    | RequestRefund
    | FailedFundRecovery
    | OtherKind(known: bool)

  datatype ActivityStatus =
    | ActivityPending
    | ActivitySuccess
    | ActivityTimeout
    | ActivityGasError
    | ActivityInitialError
    | ActivityReceiptError
    | ActivityPendingError

  function ActivityCode(status: ActivityStatus): nat {
    match status
    case ActivityPending => 0
    case ActivitySuccess => 1
    case ActivityTimeout => 2
    case ActivityGasError => 3
    case ActivityInitialError => 4
    case ActivityReceiptError => 5
    case ActivityPendingError => 6
  }

  datatype Activity = Activity(kind: ActivityKind, status: ActivityStatus)

  datatype ProjectStatus =
    | Inactive
    | Cancelled
    | MilestoneFailed
    | Ended
    | ProjectError
    | Deployed
    | MilestonePhase
    | ModerationPhase
    | ReadyToCancel
    | FundsRecovered
    | MilestoneSuccess
    | Failed

  datatype Funding = Funding(backers: seq<int>, amounts: seq<int>, complete: bool, total: int)

  datatype Project = Project(
    status: ProjectStatus,
    next: int,
    completedAt: Option<int>,
    completed: seq<ActivityKind>,
    contract: string,
    milestones: seq<int>,
    funding: Option<Funding>)

  /** A decoded event value: a boolean, text, or a list. */
  datatype Value = Flag(b: bool) | Text(s: string) | List(items: seq<Value>)

  /** The event field of a report: a list, or something else, such as the text '[]' of a receipt without logs. */
  datatype Payload = NotList | Items(values: seq<Value>)

  /** A report of the blockchain service about one activity. */
  datatype Response = Response(status: TxStatus, parent: nat, kind: ActivityKind, events: Payload)

  /** What the oracle tells the backend. */
  datatype Note =
    | ProjectCreated
    | ProjectCompleted
    | MilestoneReleased(ok: bool)
    | FundWithdrawal(amount: int)
    | ModerationStarted
    | ModerationEnded(result: bool)
    | FundsReturned(amount: int)
    | VoteNoted(kind: ActivityKind)
    | PlainNote(kind: ActivityKind, ok: bool)

  /** What the oracle asks the blockchain service. */
  datatype Request = Request(kind: ActivityKind, activity: nat, user: int)

  /** Ways a callback ends early: the process exits or the handler panics. */
  datatype Fault = UnknownActivity | UnknownEvent | BadPayload | NoFunding | NoMilestones | LostMilestone

  datatype World = World(
    project: Project,
    activities: seq<Activity>,
    notes: seq<Note>,
    requests: seq<Request>,
    faults: seq<Fault>)

  // ---- Small steps ----

  function Succeed(w: World, id: nat): World
    requires id < |w.activities|
  {
    w.(activities := w.activities[id := w.activities[id].(status := ActivitySuccess)])
  }

  function Notify(w: World, note: Note): World {
    w.(notes := w.notes + [note])
  }

  function Fail(w: World, fault: Fault): World {
    w.(faults := w.faults + [fault])
  }

  /** Open a pending activity and send its request. */
  function Ask(w: World, kind: ActivityKind, user: int): World {
    w.(activities := w.activities + [Activity(kind, ActivityPending)],
       requests := w.requests + [Request(kind, |w.activities|, user)])
  }

  /** Whether a kind of activity is listed as completed. */
  predicate Listed(kind: ActivityKind, completed: seq<ActivityKind>) {
    kind in completed
  }

  predicate CreationDone(completed: seq<ActivityKind>) {
    Listed(ProjectDeploy, completed) && Listed(SetBackers, completed) && Listed(SetProjectInfo, completed)
  }

  predicate ModerationDone(completed: seq<ActivityKind>) {
    Listed(CommitFinalVotes, completed) && Listed(CancelProject, completed)
  }

  // ---- Reading the payload ----

  predicate IsDigit(ch: char) {
    '0' <= ch <= '9'
  }

  function Digits(s: string): nat
    requires forall i :: 0 <= i < |s| ==> IsDigit(s[i])
  {
    if s == "" then 0
    else
      assert IsDigit(s[|s| - 1]);
      10 * Digits(s[..|s| - 1]) + (s[|s| - 1] as int - '0' as int)
  }

  /** Unsigned text as a decimal number, zero when it is none. */
  function Unsigned(s: string): nat {
    if exists i :: 0 <= i < |s| && !IsDigit(s[i]) then 0 else Digits(s)
  }

  /** Text as a decimal number, zero when it is none. */
  function Atoi(s: string): int {
    if s != "" && s[0] == '-' then 0 - Unsigned(s[1..])
    else if s != "" && s[0] == '+' then Unsigned(s[1..])
    else Unsigned(s)
  }

  predicate HasField(v: Value, i: nat) {
    v.List? && i < |v.items|
  }

  predicate HasAmount(v: Value) {
    HasField(v, 0) && v.items[0].Text?
  }

  /** The second field of the last event, as a flag; false without events or when it is no flag. */
  function LastFlag(p: Payload): Option<bool> {
    if p.NotList? || exists i :: 0 <= i < |p.values| && !HasField(p.values[i], 1) then None
    else if p.values == [] then Some(false)
    else
      var field := p.values[|p.values| - 1].items[1];
      Some(field.Flag? && field.b)
  }

  /** The first field of the last event, as a number; zero without events. */
  function LastAmount(p: Payload): Option<int> {
    if p.NotList? || exists i :: 0 <= i < |p.values| && !HasAmount(p.values[i]) then None
    else if p.values == [] then Some(0)
    else Some(Atoi(p.values[|p.values| - 1].items[0].s))
  }

  /** The last text of a list of texts, empty without events. */
  function LastText(p: Payload): Option<string> {
    if p.NotList? || exists i :: 0 <= i < |p.values| && !p.values[i].Text? then None
    else if p.values == [] then Some("")
    else Some(p.values[|p.values| - 1].s)
  }

  // ---- The callbacks ----

  function OnDeploy(w: World, r: Response): World
    requires r.parent < |w.activities|
  {
    var address := LastText(r.events);
    if address.None? then Fail(w, BadPayload)
    else
      var p := w.project;
      Notify(Succeed(w, r.parent).(project :=
               p.(status := Deployed, contract := address.value, completed := p.completed + [ProjectDeploy])),
             ProjectCreated)
  }

  function OnBackers(w: World, r: Response): World
    requires r.parent < |w.activities|
  {
    var p := w.project.(status := MilestonePhase, completed := w.project.completed + [SetBackers]);
    var w1 := Succeed(w, r.parent).(project := p);
    if CreationDone(p.completed) then Notify(w1, ProjectCompleted) else w1
  }

  function OnInfo(w: World, r: Response): World
    requires r.parent < |w.activities|
  {
    var p := w.project.(completed := w.project.completed + [SetProjectInfo]);
    var w1 := Succeed(w, r.parent).(project := p);
    if p.funding.None? then Fail(w1, NoFunding)
    else
      var w2 := Ask(w1, SetBackers, 0);
      if CreationDone(p.completed) then Notify(w2, ProjectCompleted) else w2
  }

  function OnModerators(w: World, r: Response): World
    requires r.parent < |w.activities|
  {
    Notify(Succeed(w, r.parent).(project := w.project.(status := ModerationPhase)), ModerationStarted)
  }

  function OnCommit(w: World, r: Response): World
    requires r.parent < |w.activities|
  {
    Ask(Succeed(w, r.parent).(project :=
          w.project.(status := ReadyToCancel, completed := w.project.completed + [CommitFinalVotes])),
        CancelProject, 0)
  }

  function OnCancel(w: World, r: Response): World
    requires r.parent < |w.activities|
  {
    if r.events.NotList? || |r.events.values| < 2 then Fail(w, BadPayload)
    else
      var result := r.events.values[1].Flag? && r.events.values[1].b;
      var p := w.project.(status := if result then Cancelled else MilestonePhase,
                          completed := w.project.completed + [CancelProject]);
      var w1 := Succeed(w, r.parent).(project := p);
      if ModerationDone(p.completed) then Notify(w1, ModerationEnded(result)) else w1
  }

  /** The least index of a milestone after `now`, if there is one. */
  function NextIndex(milestones: seq<int>, now: int): (i: nat)
    ensures i <= |milestones|
    ensures forall k :: 0 <= k < i ==> milestones[k] <= now
    ensures i < |milestones| ==> milestones[i] > now
  {
    if milestones == [] || milestones[0] > now then 0 else 1 + NextIndex(milestones[1..], now)
  }

  /** A passed check at time `now`: move to the next milestone, or complete the project, or give up. */
  function Advance(p: Project, now: int): Option<Project>
    requires p.milestones != []
  {
    var i := NextIndex(p.milestones, now);
    if i < |p.milestones| then Some(p.(next := p.milestones[i]))
    else if |p.milestones| == 1 || SameStamp(p.milestones[|p.milestones| - 1], p.next) then
      Some(p.(completedAt := Some(now), status := MilestoneSuccess))
    else None
  }

  /** One refund request for each backer, in order. */
  function AskRefunds(w: World, backers: seq<int>): World
    decreases |backers|
  {
    if backers == [] then w else AskRefunds(Ask(w, RequestRefund, backers[0]), backers[1..])
  }

  function OnPass(w: World, id: nat, now: int): World
    requires id < |w.activities|
  {
    var w1 := Succeed(w, id);
    if w.project.milestones == [] then Fail(w1, NoMilestones)
    else
      var p := Advance(w.project, now);
      if p.None? then Fail(w1, LostMilestone)
      else Notify(w1.(project := p.value), MilestoneReleased(true))
  }

  function OnMiss(w: World, id: nat): World
    requires id < |w.activities|
  {
    var w1 := Succeed(w, id).(project := w.project.(status := MilestoneFailed));
    if w.project.funding.None? then Fail(w1, NoFunding)
    else Notify(AskRefunds(w1, w.project.funding.value.backers), MilestoneReleased(false))
  }

  function OnCheck(w: World, r: Response, now: int): World
    requires r.parent < |w.activities|
  {
    var result := LastFlag(r.events);
    if result.None? then Fail(w, BadPayload)
    else if result.value then OnPass(w, r.parent, now)
    else OnMiss(w, r.parent)
  }

  /** The withdrawn amount is read into a variable of the loop's own scope, so zero is reported. */
  function OnWithdraw(w: World, r: Response): World
    requires r.parent < |w.activities|
  {
    if LastText(r.events).None? then Fail(w, BadPayload)
    else
      var w1 := Succeed(w, r.parent);
      if w.project.status == MilestoneSuccess then
        Notify(w1.(project := w.project.(status := Ended)), FundWithdrawal(0))
      else w1
  }

  function OnRefund(w: World, r: Response): World
    requires r.parent < |w.activities|
  {
    var amount := LastAmount(r.events);
    if amount.None? then Fail(w, BadPayload)
    else
      var w1 := Succeed(w, r.parent);
      if w.project.status == MilestoneFailed then
        Notify(w1.(project := w.project.(status := Failed)), FundWithdrawal(amount.value))
      else w1
  }

  /** The date that parsing a date with a mismatched layout leaves: the start of year 1. */
  const ZERO_TIME := -62135596800

  function OnRecovery(w: World, r: Response): World
    requires r.parent < |w.activities|
  {
    var amount := LastAmount(r.events);
    if amount.None? then Fail(w, BadPayload)
    else
      Notify(Succeed(w, r.parent).(project := w.project.(next := ZERO_TIME, status := FundsRecovered)),
             FundsReturned(amount.value))
  }

  /** The type of the activity a vote callback is about: any, since the handler is chosen by the report's type. */
  datatype VoteKind = MilestoneKind | ModerationKind | AnyKind

  /** One event of a vote: user and vote of a milestone vote; the user of a moderation vote, whose vote is
      sealed. */
  predicate IsVote(kind: VoteKind, v: Value) {
    match kind
    case MilestoneKind => v.List? && |v.items| >= 2 && v.items[0].Text?
    case ModerationKind => v.List? && |v.items| >= 3 && v.items[1].Text?
    case AnyKind => true
  }

  function VoteOf(kind: VoteKind, v: Value): (int, bool)
    requires IsVote(kind, v)
  {
    match kind
    case MilestoneKind => (Atoi(v.items[0].s), v.items[1].Flag? && v.items[1].b)
    case ModerationKind => (Atoi(v.items[1].s), false)
    case AnyKind => (0, false)
  }

  /** User and vote of the last event, zero and false without events; nothing when an event has another form. The events
      of other activities are not looked at. */
  function LastVote(kind: VoteKind, p: Payload): Option<(int, bool)> {
    if kind.AnyKind? then Some((0, false))
    else if p.NotList? || exists i :: 0 <= i < |p.values| && !IsVote(kind, p.values[i]) then None
    else if p.values == [] then Some((0, false))
    else Some(VoteOf(kind, p.values[|p.values| - 1]))
  }

  function VoteKindOf(kind: ActivityKind): VoteKind {
    if kind.MilestoneVote? then MilestoneKind
    else if kind.ModerationVote? then ModerationKind
    else AnyKind
  }

  /** A vote's activity succeeds before its events are read. Votes leave the project record alone; their rows are the
      subject of `Votes`. */
  function OnVote(w: World, r: Response): World
    requires r.parent < |w.activities|
  {
    var kind := w.activities[r.parent].kind;
    var w1 := Succeed(w, r.parent);
    if LastVote(VoteKindOf(kind), r.events).None? then Fail(w1, BadPayload) else Notify(w1, VoteNoted(kind))
  }

  function OnOther(w: World, r: Response): World
    requires r.parent < |w.activities|
  {
    var w1 := Succeed(w, r.parent);
    if w.activities[r.parent].kind == OtherKind(false) then Fail(w1, UnknownEvent)
    else Notify(w1, PlainNote(r.kind, true))
  }

  /** Dispatch of a completed response on its type. */
  function OnComplete(w: World, r: Response, now: int): World
    requires r.parent < |w.activities|
  {
    match r.kind
    case ProjectDeploy => OnDeploy(w, r)
    case SetBackers => OnBackers(w, r)
    case SetProjectInfo => OnInfo(w, r)
    case SetModerators => OnModerators(w, r)
    case CommitFinalVotes => OnCommit(w, r)
    case CancelProject => OnCancel(w, r)
    case MilestoneVote => OnVote(w, r)
    case ModerationVote => OnVote(w, r)
    case CheckMilestone => OnCheck(w, r, now)
    case WithdrawFunds => OnWithdraw(w, r)
    case RequestRefund => OnRefund(w, r)
    case FailedFundRecovery => OnRecovery(w, r)
    case OtherKind(_) => OnOther(w, r)
  }

  function FailureStatus(status: TxStatus, before: ActivityStatus): ActivityStatus {
    match status
    case FailedTimeout => ActivityTimeout
    case FailedGas => ActivityGasError
    case FailedInitial => ActivityInitialError
    case FailedReceipt => ActivityReceiptError
    case FailedPending => ActivityPendingError
    case _ => before
  }

  function OnFailure(w: World, r: Response): World
    requires r.parent < |w.activities|
  {
    var a := w.activities[r.parent];
    var w1 := w.(activities := w.activities[r.parent := a.(status := FailureStatus(r.status, a.status))]);
    if a.kind == OtherKind(false) then Fail(w1, UnknownEvent) else Notify(w1, PlainNote(r.kind, false))
  }

  /** The callback handler: one report, one read-modify-write. */
  function OnCallback(w: World, r: Response, now: int): World {
    if r.parent >= |w.activities| then Fail(w, UnknownActivity)
    else if StatusCode(r.status) <= 2 then (if r.status.Complete? then OnComplete(w, r, now) else w)
    else OnFailure(w, r)
  }

  // ---- Requests and the scheduler ----

  /** A request to record project information rewrites the parameters before anything is confirmed. */
  function OnInfoRequest(w: World, funding: Option<Funding>): World {
    Ask(w.(project := w.project.(status := Deployed, funding := funding)), SetProjectInfo, 0)
  }

  /** Any other request opens an activity and sends it; a vote opens a second activity after sending. */
  function OnRequest(w: World, kind: ActivityKind, user: int): World {
    if kind.SetProjectInfo? || kind.ProjectDeploy? then w
    else if kind.MilestoneVote? || kind.ModerationVote? then
      var w1 := Ask(w, kind, user);
      w1.(activities := w1.activities + [Activity(kind, ActivityPending)])
    else Ask(w, kind, user)
  }

  /** Whether the scheduler selects the project at all. */
  predicate Selected(p: Project) {
    p.status in {Deployed, MilestonePhase, ModerationPhase, ReadyToCancel, FundsRecovered, MilestoneSuccess, Failed}
    && p.next > ZERO_TIME
  }

  /** The scheduler replaces a date of 1970 or earlier by the first milestone. */
  function Initialised(p: Project): Project
    requires p.milestones != []
  {
    if p.next < 31536000 then p.(next := p.milestones[0]) else p
  }

  function OnTick(w: World, now: int): World {
    var p := w.project;
    if !Selected(p) || p.status != MilestonePhase then w
    else if p.milestones == [] && p.next < 31536000 then Fail(w, NoMilestones)
    else
      var p1 := if p.next < 31536000 then Initialised(p) else p;
      var w1 := w.(project := p1);
      if now >= p1.next then Ask(w1, CheckMilestone, 0) else w1
  }

  /** Everything that happens to a project after its creation, with the time at which it happens. */
  datatype Event =
    | Reported(response: Response, now: int)
    | Requested(kind: ActivityKind, user: int, now: int)
    | InfoRequested(funding: Option<Funding>, now: int)
    | Ticked(now: int)

  function OStep(w: World, e: Event): World {
    match e
    case Reported(r, now) => OnCallback(w, r, now)
    case Requested(kind, user, _) => OnRequest(w, kind, user)
    case InfoRequested(funding, _) => OnInfoRequest(w, funding)
    case Ticked(now) => OnTick(w, now)
  }

  function ORun(w: World, events: seq<Event>): World
    decreases |events|
  {
    if events == [] then w else ORun(OStep(w, events[0]), events[1..])
  }

  /** Integer division as the oracle's language does it, towards zero. */
  function TruncDiv(a: int, b: int): int
    requires b > 0
  {
    if a >= 0 then a / b else -((-a) / b)
  }

  /** A new project: a placeholder date a thousandth of the first milestone, and the deployment request. Without
      milestones the request fails before anything is stored. */
  function Created(milestones: seq<int>): Option<World> {
    if milestones == [] then None
    else
      var p := Project(Inactive, TruncDiv(milestones[0], 1000), None, [], "", milestones, None);
      Some(Ask(World(p, [], [], [], []), ProjectDeploy, 0))
  }
}
