/** Every request has its own activity.

    A request to the blockchain service carries the number of an activity, and the report that comes back is booked on
    the activity of that number. Whatever mixture of callbacks, requests and scheduler ticks a project goes through,
    the requests sent and the activities opened stay matched one to one and in the same order, with equal kinds, except
    for the activity that a request to vote opens after it has been sent: no request ever names that one. */
module OracleRequests {
  import opened Transactions
  import opened OracleSpec
  import opened OracleOutcomes

  /** Each request sent names an activity of its own kind, later requests later ones. */
  ghost predicate Owned(w: World) {
    && (forall k :: 0 <= k < |w.requests| ==>
          w.requests[k].activity < |w.activities| && w.activities[w.requests[k].activity].kind == w.requests[k].kind)
    && (forall j, k :: 0 <= j < k < |w.requests| ==> w.requests[j].activity < w.requests[k].activity)
  }

  /** No activity is lost or changes its kind, and no request is taken back. */
  ghost predicate Grows(w: World, w': World) {
    && |w.activities| <= |w'.activities|
    && (forall i :: 0 <= i < |w.activities| ==> w'.activities[i].kind == w.activities[i].kind)
    && w.requests <= w'.requests
  }

  /** Activities that carry no request. */
  function Spare(w: World): int {
    |w.activities| - |w.requests|
  }

  /** The requests to vote: each opens a second activity, for which nothing is sent. */
  function VotesAsked(events: seq<Event>): nat {
    if events == [] then 0
    else (if events[0].Requested? && events[0].kind in {MilestoneVote, ModerationVote} then 1 else 0)
         + VotesAsked(events[1..])
  }

  /** An activity is opened and its request sent. */
  predicate Opens(w: World, w': World, kind: ActivityKind, user: int) {
    && w'.activities == w.activities + [Activity(kind, ActivityPending)]
    && w'.requests == w.requests + [Request(kind, |w.activities|, user)]
  }

  lemma OpeningKeepsOwned(w: World, w': World, kind: ActivityKind, user: int)
    requires Owned(w) && Opens(w, w', kind, user)
    ensures Owned(w') && Grows(w, w') && Spare(w') == Spare(w)
  {
  }

  lemma AskKeepsOwned(w: World, kind: ActivityKind, user: int)
    requires Owned(w)
    ensures var w' := Ask(w, kind, user); Owned(w') && Grows(w, w') && Spare(w') == Spare(w)
  {
    OpeningKeepsOwned(w, Ask(w, kind, user), kind, user);
  }

  lemma {:induction false} RefundsKeepOwned(w: World, backers: seq<int>)
    requires Owned(w)
    ensures var w' := AskRefunds(w, backers); Owned(w') && Grows(w, w') && Spare(w') == Spare(w)
    decreases |backers|
  {
    if backers != [] {
      AskKeepsOwned(w, RequestRefund, backers[0]);
      RefundsKeepOwned(Ask(w, RequestRefund, backers[0]), backers[1..]);
    }
  }

  lemma CheckKeepsOwned(w: World, r: Response, now: int)
    requires Owned(w) && r.parent < |w.activities|
    ensures var w' := OnCheck(w, r, now); Owned(w') && Grows(w, w') && Spare(w') == Spare(w)
  {
    if LastFlag(r.events) == Some(false) && w.project.funding.Some? {
      RefundsKeepOwned(Succeed(w, r.parent).(project := w.project.(status := MilestoneFailed)),
                       w.project.funding.value.backers);
    }
  }

  /** Activities keep their kinds and nothing is sent. */
  ghost predicate Quiet(w: World, w': World) {
    && |w'.activities| == |w.activities| && w'.requests == w.requests
    && forall i :: 0 <= i < |w.activities| ==> w'.activities[i].kind == w.activities[i].kind
  }

  lemma QuietKeepsOwned(w: World, w': World)
    requires Owned(w) && Quiet(w, w')
    ensures Owned(w') && Grows(w, w') && Spare(w') == Spare(w)
  {
  }

  lemma OthersAreQuiet(w: World, r: Response, now: int)
    requires r.parent < |w.activities| && r.kind !in {SetProjectInfo, CommitFinalVotes, CheckMilestone}
    ensures Quiet(w, OnComplete(w, r, now))
  {
  }

  lemma CompletionKeepsOwned(w: World, r: Response, now: int)
    requires Owned(w) && r.parent < |w.activities|
    ensures var w' := OnComplete(w, r, now); Owned(w') && Grows(w, w') && Spare(w') == Spare(w)
  {
    if r.kind == CheckMilestone {
      CheckKeepsOwned(w, r, now);
    } else if r.kind == CommitFinalVotes || r.kind == SetProjectInfo {
      AskingKeepsOwned(w, r, now);
    } else {
      OthersAreQuiet(w, r, now);
      QuietKeepsOwned(w, OnComplete(w, r, now));
    }
  }

  lemma AskingKeepsOwned(w: World, r: Response, now: int)
    requires Owned(w) && r.parent < |w.activities| && r.kind in {SetProjectInfo, CommitFinalVotes}
    ensures var w' := OnComplete(w, r, now); Owned(w') && Grows(w, w') && Spare(w') == Spare(w)
  {
    var done, w' := Succeed(w, r.parent), OnComplete(w, r, now);
    var kind := if r.kind == SetProjectInfo then SetBackers else CancelProject;
    QuietKeepsOwned(w, done);
    if Opens(done, w', kind, 0) { OpeningKeepsOwned(done, w', kind, 0); }
  }

  lemma CallbackKeepsOwned(w: World, r: Response, now: int)
    requires Owned(w)
    ensures var w' := OnCallback(w, r, now); Owned(w') && Grows(w, w') && Spare(w') == Spare(w)
  {
    if Completes(w, r) {
      CompletionKeepsOwned(w, r, now);
    } else {
      assert Quiet(w, OnCallback(w, r, now));
      QuietKeepsOwned(w, OnCallback(w, r, now));
    }
  }

  lemma RequestKeepsOwned(w: World, kind: ActivityKind, user: int)
    requires Owned(w)
    ensures var w' := OnRequest(w, kind, user);
            Owned(w') && Grows(w, w')
            && Spare(w') == Spare(w) + (if kind in {MilestoneVote, ModerationVote} then 1 else 0)
  {
    AskKeepsOwned(w, kind, user);
  }

  lemma TickKeepsOwned(w: World, now: int)
    requires Owned(w)
    ensures var w' := OnTick(w, now); Owned(w') && Grows(w, w') && Spare(w') == Spare(w)
  {
    var w' := OnTick(w, now);
    if Opens(w, w', CheckMilestone, 0) {
      OpeningKeepsOwned(w, w', CheckMilestone, 0);
    } else {
      QuietKeepsOwned(w, w');
    }
  }

  lemma StepKeepsOwned(w: World, e: Event)
    requires Owned(w)
    ensures var w' := OStep(w, e); Owned(w') && Grows(w, w') && Spare(w') == Spare(w) + VotesAsked([e])
  {
    assert [e][1..] == [];
    match e
    case Reported(r, now) => CallbackKeepsOwned(w, r, now);
    case Requested(kind, user, _) => RequestKeepsOwned(w, kind, user);
    case InfoRequested(funding, _) =>
      OpeningKeepsOwned(w, OStep(w, e), SetProjectInfo, 0);
    case Ticked(now) => TickKeepsOwned(w, now);
  }

  /** Over any run: requests and activities stay matched one to one, except for one activity of each vote asked for. */
  lemma {:induction false} RequestsOwnActivities(w: World, events: seq<Event>)
    requires Owned(w)
    ensures var w' := ORun(w, events);
            Owned(w') && Grows(w, w') && Spare(w') == Spare(w) + VotesAsked(events)
    decreases |events|
  {
    if events != [] {
      StepKeepsOwned(w, events[0]);
      RequestsOwnActivities(OStep(w, events[0]), events[1..]);
      assert [events[0]][1..] == [];
    }
  }

  lemma RequestsOwnActivitiesFromCreation(ms: seq<int>, events: seq<Event>)
    requires ms != []
    ensures var w := ORun(Created(ms).value, events);
            Owned(w) && |w.activities| == |w.requests| + VotesAsked(events)
  {
    RequestsOwnActivities(Created(ms).value, events);
  }
}
