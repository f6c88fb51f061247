/** The milestone schedule over whole runs. */
module Milestones {
  import opened Transactions
  import opened CivilTime
  import opened OracleSpec
  import opened OracleHistory

  // ---- Events in time ----

  function TimeOf(e: Event): int {
    match e
    case Reported(_, now) => now
    case Requested(_, _, now) => now
    case InfoRequested(_, now) => now
    case Ticked(now) => now
  }

  /** The clock never runs backwards. */
  ghost predicate Timed(clock: int, events: seq<Event>)
    decreases |events|
  {
    events != [] ==> clock <= TimeOf(events[0]) && Timed(TimeOf(events[0]), events[1..])
  }

  predicate Recovers(e: Event) {
    e.Reported? && e.response.kind == FailedFundRecovery && e.response.status.Complete?
  }

  ghost predicate NoRecovery(events: seq<Event>) {
    forall i :: 0 <= i < |events| ==> !Recovers(events[i])
  }

  /** A completed check callback whose last event says the milestone passed. */
  predicate Passes(w: World, e: Event) {
    && e.Reported? && e.response.status.Complete? && e.response.kind == CheckMilestone
    && e.response.parent < |w.activities| && LastFlag(e.response.events) == Some(true)
  }

  predicate Sorted(ms: seq<int>) {
    forall i, j :: 0 <= i < j < |ms| ==> ms[i] <= ms[j]
  }

  predicate Increasing(ms: seq<int>) {
    forall i, j :: 0 <= i < j < |ms| ==> ms[i] < ms[j]
  }

  /** The least milestone after a time, if any. */
  lemma NextIsLeast(ms: seq<int>, now: int)
    requires Sorted(ms)
    ensures var i := NextIndex(ms, now);
            && (i < |ms| <==> exists m :: m in ms && m > now)
            && (i < |ms| ==> forall m :: m in ms && m > now ==> ms[i] <= m)
  {
    var i := NextIndex(ms, now);
    forall m | m in ms && m > now
      ensures i < |ms| && ms[i] <= m
    {
      var k :| 0 <= k < |ms| && ms[k] == m;
      assert !(k < i);
    }
    if i < |ms| { assert ms[i] in ms; }
  }

  // ---- The schedule invariant ----

  /** The next date is a milestone, everything before it has passed, and it will not be mistaken for a placeholder. */
  predicate OnSchedule(p: Project, clock: int) {
    && p.milestones != [] && Sorted(p.milestones) && p.next in p.milestones && clock >= 31536000
    && (p.next == p.milestones[0] || p.next >= 31536000)
    && forall m :: m in p.milestones && m < p.next ==> m <= clock
  }

  /** All that an event can do to milestones and the next date, once the record is initialised. */
  lemma ScheduleStep(w: World, e: Event, clock: int)
    requires OnSchedule(w.project, clock) && clock <= TimeOf(e) && !Recovers(e)
    ensures var p, p' := w.project, OStep(w, e).project;
            && p'.milestones == p.milestones
            && p'.next == (if Passes(w, e) && NextIndex(p.milestones, TimeOf(e)) < |p.milestones|
                           then p.milestones[NextIndex(p.milestones, TimeOf(e))] else p.next)
  {
    var p := w.project;
    if e.Reported? && e.response.parent < |w.activities| && e.response.kind == CheckMilestone
       && e.response.status.Complete?
    {
      assert OStep(w, e) == OnCheck(w, e.response, e.now);
      if LastFlag(e.response.events) == Some(false) && p.funding.Some? {
        RefundFanOut(Succeed(w, e.response.parent).(project := p.(status := MilestoneFailed)), p.funding.value.backers);
      }
    }
  }

  lemma StepStaysOnSchedule(w: World, e: Event, clock: int)
    requires OnSchedule(w.project, clock) && clock <= TimeOf(e) && !Recovers(e)
    ensures OnSchedule(OStep(w, e).project, TimeOf(e))
    ensures OStep(w, e).project.next >= w.project.next
  {
    ScheduleStep(w, e, clock);
    NextIsLeast(w.project.milestones, TimeOf(e));
  }

  /** The time of the latest passed check after which a milestone was still to come. */
  ghost function LastPass(w: World, events: seq<Event>): Option<int>
    decreases |events|
  {
    if events == [] then None
    else
      var later := LastPass(OStep(w, events[0]), events[1..]);
      var now := TimeOf(events[0]);
      if later.Some? then later
      else if Passes(w, events[0]) && NextIndex(w.project.milestones, now) < |w.project.milestones| then Some(now)
      else None
  }

  /** Over any run without fund recovery the next date is always one of the milestones and never goes back, and it
      is the least milestone after the latest passed check that had one after it. */
  lemma {:induction false} ScheduleOverRuns(w: World, events: seq<Event>, clock: int)
    requires OnSchedule(w.project, clock) && Timed(clock, events) && NoRecovery(events)
    ensures var p, p' := w.project, ORun(w, events).project;
            && p'.milestones == p.milestones && p'.next in p.milestones && p'.next >= p.next
            && match LastPass(w, events)
               case None => p'.next == p.next
               case Some(t) =>
                 NextIndex(p.milestones, t) < |p.milestones| && p'.next == p.milestones[NextIndex(p.milestones, t)]
    decreases |events|
  {
    if events != [] {
      assert !Recovers(events[0]);
      assert forall i :: 0 <= i < |events[1..]| ==> events[1..][i] == events[i + 1];
      StepStaysOnSchedule(w, events[0], clock);
      ScheduleStep(w, events[0], clock);
      ScheduleOverRuns(OStep(w, events[0]), events[1..], TimeOf(events[0]));
    }
  }

  // ---- Counting due passes ----

  /** How many milestones lie at or after a time. */
  function NotBefore(ms: seq<int>, t: int): nat {
    if ms == [] then 0 else (if ms[0] >= t then 1 else 0) + NotBefore(ms[1..], t)
  }

  lemma {:induction false} NotBeforeBound(ms: seq<int>, t: int)
    ensures NotBefore(ms, t) <= |ms|
    ensures t in ms ==> NotBefore(ms, t) >= 1
  {
    if ms != [] {
      NotBeforeBound(ms[1..], t);
    }
  }

  lemma {:induction false} NotBeforeShrinks(ms: seq<int>, t: int, t': int)
    requires t <= t'
    ensures NotBefore(ms, t') <= NotBefore(ms, t)
    ensures t in ms && t < t' ==> NotBefore(ms, t') < NotBefore(ms, t)
  {
    if ms != [] {
      NotBeforeShrinks(ms[1..], t, t');
    }
  }

  /** How many passed checks in a run arrived when their milestone was due. */
  ghost function DuePasses(w: World, events: seq<Event>): nat
    decreases |events|
  {
    if events == [] then 0
    else
      (if Passes(w, events[0]) && TimeOf(events[0]) >= w.project.next then 1 else 0)
      + DuePasses(OStep(w, events[0]), events[1..])
  }

  /** Some passed check in the run found no later milestone: it completed the project or gave up. */
  ghost predicate Finishes(w: World, events: seq<Event>)
    decreases |events|
  {
    events != [] &&
    ((Passes(w, events[0]) && NextIndex(w.project.milestones, TimeOf(events[0])) == |w.project.milestones|)
     || Finishes(OStep(w, events[0]), events[1..]))
  }

  lemma {:induction false} DuePassesUseUpMilestones(w: World, events: seq<Event>, clock: int)
    requires OnSchedule(w.project, clock) && Timed(clock, events) && NoRecovery(events)
    requires !Finishes(w, events)
    ensures ORun(w, events).project.next in w.project.milestones
    ensures NotBefore(w.project.milestones, ORun(w, events).project.next) + DuePasses(w, events)
            <= NotBefore(w.project.milestones, w.project.next)
    decreases |events|
  {
    if events != [] {
      assert !Recovers(events[0]);
      assert forall i :: 0 <= i < |events[1..]| ==> events[1..][i] == events[i + 1];
      var w' := OStep(w, events[0]);
      StepStaysOnSchedule(w, events[0], clock);
      ScheduleStep(w, events[0], clock);
      NotBeforeShrinks(w.project.milestones, w.project.next, w'.project.next);
      DuePassesUseUpMilestones(w', events[1..], TimeOf(events[0]));
    }
  }

  /** A run with as many due passes as milestones has completed the project or taken the branch that gives up. */
  lemma AtMostOneDuePassPerMilestone(w: World, events: seq<Event>, clock: int)
    requires OnSchedule(w.project, clock) && Timed(clock, events) && NoRecovery(events)
    ensures DuePasses(w, events) >= |w.project.milestones| ==> Finishes(w, events)
  {
    if !Finishes(w, events) {
      DuePassesUseUpMilestones(w, events, clock);
      NotBeforeBound(w.project.milestones, w.project.next);
      NotBeforeBound(w.project.milestones, ORun(w, events).project.next);
    }
  }

  // ---- No gap skipped ----

  /** No passed check skips a gap between milestones: with `i` gaps done, a check comes no later than milestone
      `i + 1`, and the run stops at the first check after the last milestone. */
  ghost predicate SkipsNoGap(w: World, i: nat, events: seq<Event>)
    requires i < |w.project.milestones|
    decreases |events|
  {
    events != [] &&
    var ms := w.project.milestones;
    var now := TimeOf(events[0]);
    if !Passes(w, events[0]) || now < ms[i] then
      events[1..] != [] && OStep(w, events[0]).project.milestones == ms
      && SkipsNoGap(OStep(w, events[0]), i, events[1..])
    else if i + 1 == |ms| then events[1..] == []
    else
      now < ms[i + 1] && OStep(w, events[0]).project.milestones == ms
      && SkipsNoGap(OStep(w, events[0]), i + 1, events[1..])
  }

  /** Some passed check took the branch that gives up. */
  ghost predicate GivesUp(w: World, events: seq<Event>)
    decreases |events|
  {
    events != [] &&
    ((Passes(w, events[0]) && w.project.milestones != [] && Advance(w.project, TimeOf(events[0])).None?)
     || GivesUp(OStep(w, events[0]), events[1..]))
  }

  lemma IndexInGap(ms: seq<int>, i: nat, now: int)
    requires Increasing(ms) && i < |ms|
    ensures (i == 0 || ms[i - 1] <= now) && now < ms[i] ==> NextIndex(ms, now) == i
    ensures ms[i] <= now && i + 1 == |ms| ==> NextIndex(ms, now) == |ms|
  {
    assert i > 0 ==> forall k :: 0 <= k < i ==> ms[k] <= ms[i - 1];
  }

  lemma PassAdvances(w: World, e: Event)
    requires Passes(w, e) && w.project.milestones != []
    ensures var p := Advance(w.project, TimeOf(e));
            OStep(w, e).project == if p.Some? then p.value else w.project
  {
    assert OStep(w, e) == OnCheck(w, e.response, e.now);
  }

  lemma LastOneSucceeds(w: World, i: nat, e: Event)
    requires i + 1 == |w.project.milestones| && w.project.next == w.project.milestones[i]
    requires NextIndex(w.project.milestones, TimeOf(e)) == |w.project.milestones|
    ensures Advance(w.project, TimeOf(e)).Some?
    ensures Passes(w, e) ==>
              OStep(w, e).project.status == MilestoneSuccess && OStep(w, e).project.completedAt == Some(TimeOf(e))
  {
    if Passes(w, e) { PassAdvances(w, e); }
  }

  /** What one event does when `i` gaps are done. */
  lemma GapStep(w: World, i: nat, e: Event, clock: int)
    requires OnSchedule(w.project, clock) && Increasing(w.project.milestones) && clock <= TimeOf(e) && !Recovers(e)
    requires i < |w.project.milestones| && w.project.next == w.project.milestones[i]
    requires i > 0 ==> w.project.milestones[i - 1] <= clock
    ensures var ms, now, p := w.project.milestones, TimeOf(e), OStep(w, e).project;
            && p.milestones == ms && OnSchedule(p, now)
            && (if !Passes(w, e) || now < ms[i] then p.next == ms[i]
                else if i + 1 == |ms| then p.status == MilestoneSuccess && p.completedAt == Some(now)
                else now < ms[i + 1] ==> p.next == ms[i + 1])
            && (Passes(w, e) && (now < ms[i] || i + 1 == |ms| || now < ms[i + 1]) ==> Advance(w.project, now).Some?)
  {
    var ms, now := w.project.milestones, TimeOf(e);
    StepStaysOnSchedule(w, e, clock);
    ScheduleStep(w, e, clock);
    if now < ms[i] {
      IndexInGap(ms, i, now);
    } else if i + 1 < |ms| {
      IndexInGap(ms, i + 1, now);
    } else {
      IndexInGap(ms, i, now);
      LastOneSucceeds(w, i, e);
    }
  }

  /** With strictly increasing milestones, if at least one passed check arrives in every gap (further ones, failed
      checks, ticks and any other callbacks but fund recovery may come in between), then the project succeeds at the
      first check after the last milestone, exactly one due check per milestone has been used, and the branch that
      gives up is never taken. */
  lemma {:induction false} OneCheckPerGapSucceeds(w: World, i: nat, events: seq<Event>, clock: int)
    requires OnSchedule(w.project, clock) && Increasing(w.project.milestones)
    requires i < |w.project.milestones| && w.project.next == w.project.milestones[i]
    requires i > 0 ==> w.project.milestones[i - 1] <= clock
    requires Timed(clock, events) && NoRecovery(events) && SkipsNoGap(w, i, events)
    ensures ORun(w, events).project.status == MilestoneSuccess
    ensures ORun(w, events).project.completedAt == Some(TimeOf(events[|events| - 1]))
    ensures DuePasses(w, events) == |w.project.milestones| - i
    ensures !GivesUp(w, events)
    decreases |events|
  {
    var ms, e, rest := w.project.milestones, events[0], events[1..];
    var now, w' := TimeOf(e), OStep(w, e);
    assert !Recovers(e);
    assert forall k :: 0 <= k < |rest| ==> rest[k] == events[k + 1];
    GapStep(w, i, e, clock);
    if !Passes(w, e) || now < ms[i] {
      OneCheckPerGapSucceeds(w', i, rest, now);
    } else if i + 1 < |ms| {
      OneCheckPerGapSucceeds(w', i + 1, rest, now);
    } else {
      assert ORun(w, events) == ORun(w', rest);
    }
  }

  lemma GivesUpAtOnce(w: World, e: Event)
    ensures GivesUp(w, [e])
            <==> Passes(w, e) && w.project.milestones != [] && Advance(w.project, TimeOf(e)).None?
  {
    assert [e][0] == e && [e][1..] == [];
    assert !GivesUp(OStep(w, e), []);
  }

  /** A passed check after the last milestone completes the project if and only if there is a single milestone or
      the next date has the last milestone's stamp. Otherwise it gives up and leaves the record as it was. */
  lemma FinalCheckOutcome(w: World, e: Event)
    requires Passes(w, e) && w.project.milestones != []
    requires NextIndex(w.project.milestones, TimeOf(e)) == |w.project.milestones|
    ensures var p, p' := w.project, OStep(w, e).project;
            if |p.milestones| == 1 || SameStamp(p.milestones[|p.milestones| - 1], p.next) then
              p' == p.(status := MilestoneSuccess, completedAt := Some(TimeOf(e))) && !GivesUp(w, [e])
            else p' == p && GivesUp(w, [e])
  {
    PassAdvances(w, e);
    GivesUpAtOnce(w, e);
  }

  // ---- When checks are issued ----

  /** The requests added since `from` contain no milestone check. */
  ghost predicate NoCheckSince(from: seq<Request>, requests: seq<Request>) {
    from <= requests && forall k :: |from| <= k < |requests| ==> requests[k].kind != CheckMilestone
  }

  /** A tick issues a check exactly when the project is selected, in its milestone phase, and due. */
  lemma TickChecksExactlyWhenDue(w: World, now: int)
    requires w.project.milestones != []
    ensures var p := Initialised(w.project);
            if Selected(w.project) && w.project.status == MilestonePhase && now >= p.next then
              OnTick(w, now) == Ask(w.(project := p), CheckMilestone, 0)
            else NoCheckSince(w.requests, OnTick(w, now).requests)
  {
  }

  lemma CallbacksIssueNoCheck(w: World, r: Response, now: int)
    ensures NoCheckSince(w.requests, OnCallback(w, r, now).requests)
  {
    if r.kind.CheckMilestone? && r.parent < |w.activities| && w.project.funding.Some? {
      RefundFanOut(Succeed(w, r.parent).(project := w.project.(status := MilestoneFailed)),
                   w.project.funding.value.backers);
    }
  }

  lemma StepIssuesNoEarlyCheck(w: World, e: Event, clock: int)
    requires OnSchedule(w.project, clock) && TimeOf(e) < w.project.next && !AsksFor(e, CheckMilestone)
    ensures NoCheckSince(w.requests, OStep(w, e).requests)
  {
    match e
    case Reported(r, now) => CallbacksIssueNoCheck(w, r, now);
    case Ticked(now) => TickChecksExactlyWhenDue(w, now);
    case _ =>
  }

  /** Between a passed check and the next milestone no check is issued, whatever ticks and callbacks come. */
  lemma {:induction false} NoCheckBeforeTheNextMilestone(w: World, events: seq<Event>, clock: int)
    requires OnSchedule(w.project, clock) && Timed(clock, events) && NoRecovery(events)
    requires forall i :: 0 <= i < |events| ==> TimeOf(events[i]) < w.project.next && !AsksFor(events[i], CheckMilestone)
    ensures NoCheckSince(w.requests, ORun(w, events).requests)
    decreases |events|
  {
    if events != [] {
      var w' := OStep(w, events[0]);
      assert !Recovers(events[0]);
      assert forall i :: 0 <= i < |events[1..]| ==> events[1..][i] == events[i + 1];
      StepIssuesNoEarlyCheck(w, events[0], clock);
      StepStaysOnSchedule(w, events[0], clock);
      NoCheckBeforeTheNextMilestone(w', events[1..], TimeOf(events[0]));
    }
  }

  /** A tick that finds the project selected, in its milestone phase, and due. */
  predicate DueTick(w: World, e: Event) {
    && e.Ticked? && Selected(w.project) && w.project.status == MilestonePhase && w.project.milestones != []
    && e.now >= Initialised(w.project).next
  }

  ghost function DueTicks(w: World, events: seq<Event>): nat
    decreases |events|
  {
    if events == [] then 0 else (if DueTick(w, events[0]) then 1 else 0) + DueTicks(OStep(w, events[0]), events[1..])
  }

  lemma StepSendsChecks(w: World, e: Event)
    requires w.project.milestones != []
    ensures Sent(OStep(w, e).requests, CheckMilestone)
            == Sent(w.requests, CheckMilestone) + (if DueTick(w, e) || AsksFor(e, CheckMilestone) then 1 else 0)
  {
    match e
    case Reported(r, now) => CallbackSends(w, r, now, CheckMilestone);
    case Requested(kind, user, _) => SentSnoc(w.requests, Request(kind, |w.activities|, user), CheckMilestone);
    case InfoRequested(_, _) => SentSnoc(w.requests, Request(SetProjectInfo, |w.activities|, 0), CheckMilestone);
    case Ticked(_) => SentSnoc(w.requests, Request(CheckMilestone, |w.activities|, 0), CheckMilestone);
  }

  lemma {:induction false} MilestonesStay(w: World, e: Event)
    ensures OStep(w, e).project.milestones == w.project.milestones
  {
    if e.Reported? && e.response.parent < |w.activities| && e.response.kind == CheckMilestone
       && w.project.funding.Some?
    {
      RefundFanOut(Succeed(w, e.response.parent).(project := w.project.(status := MilestoneFailed)),
                   w.project.funding.value.backers);
    }
  }

  /** Over any run the milestone checks sent are exactly one for every tick that finds the project selected, in its
      milestone phase and due, besides those asked for from outside. */
  lemma {:induction false} ChecksAreDueTicks(w: World, events: seq<Event>)
    requires w.project.milestones != []
    ensures Sent(ORun(w, events).requests, CheckMilestone)
            == Sent(w.requests, CheckMilestone) + DueTicks(w, events) + AskedFor(events, CheckMilestone)
    decreases |events|
  {
    if events != [] {
      StepSendsChecks(w, events[0]);
      MilestonesStay(w, events[0]);
      ChecksAreDueTicks(OStep(w, events[0]), events[1..]);
    }
  }

  /** Every tick of the run finds the project out of its milestone phase. */
  ghost predicate TicksOutOfPhase(w: World, events: seq<Event>)
    decreases |events|
  {
    events != [] ==>
      (events[0].Ticked? ==> w.project.status != MilestonePhase) && TicksOutOfPhase(OStep(w, events[0]), events[1..])
  }

  lemma {:induction false} NoDueTickOutOfPhase(w: World, events: seq<Event>)
    requires TicksOutOfPhase(w, events)
    ensures DueTicks(w, events) == 0
    decreases |events|
  {
    if events != [] { NoDueTickOutOfPhase(OStep(w, events[0]), events[1..]); }
  }

  /** While the project is out of its milestone phase the scheduler sends no check, over any run. */
  lemma NoCheckOutOfPhase(w: World, events: seq<Event>)
    requires w.project.milestones != [] && TicksOutOfPhase(w, events)
    ensures Sent(ORun(w, events).requests, CheckMilestone)
            == Sent(w.requests, CheckMilestone) + AskedFor(events, CheckMilestone)
  {
    ChecksAreDueTicks(w, events);
    NoDueTickOutOfPhase(w, events);
  }

  // ---- A shared stamp ----

  /** A project with two milestones that is waiting for the first. */
  function Waiting(first: int, last: int): World {
    World(Project(MilestonePhase, first, None, [SetBackers], "", [first, last], None),
          [Activity(CheckMilestone, ActivityPending)], [], [], [])
  }

  /** The report that the check passed. */
  function PassReport(now: int): Event {
    Reported(Response(Complete, 0, CheckMilestone, Items([List([Flag(true), Flag(true)])])), now)
  }

  /** If the only check arrives after both milestones, the last milestone has never been checked; the project still
      succeeds exactly when the two milestones share their stamp, and gives up otherwise. */
  lemma SkippedMilestoneOutcome(first: int, last: int, now: int)
    requires first < last <= now
    ensures var w := Waiting(first, last);
            var e := PassReport(now);
            && Passes(w, e) && TimeOf(e) >= w.project.next
            && (OStep(w, e).project.status == MilestoneSuccess <==> SameStamp(last, first))
            && (GivesUp(w, [e]) <==> !SameStamp(last, first))
  {
    var w, e := Waiting(first, last), PassReport(now);
    var values := [List([Flag(true), Flag(true)])];
    assert LastFlag(Items(values)) == Some(true) by {
      assert HasField(values[0], 1);
    }
    assert [first, last][1..] == [last] && [last][1..] == [];
    assert NextIndex([first, last], now) == 2;
    FinalCheckOutcome(w, e);
  }

  /** Both outcomes occur: the fifth of December 2021 at one o'clock and the fifth of February 2022 at eleven share
      their stamp, the fifth and the sixth of December do not. */
  lemma StampDecidesTheProject()
    ensures exists first, last, now ::
              && first < last <= now && InRange(first) && InRange(last)
              && OStep(Waiting(first, last), PassReport(now)).project.status == MilestoneSuccess
    ensures exists first, last, now ::
              && first < last <= now && InRange(first) && InRange(last)
              && GivesUp(Waiting(first, last), [PassReport(now)])
  {
    var a, b, d := Civil(2021, 12, 5, 1, 0, 0), Civil(2022, 2, 5, 11, 0, 0), Civil(2021, 12, 6, 1, 0, 0);
    StampsAgreeExactly(a, b);
    StampsAgreeExactly(a, d);
    ToUnixIsInverse(a);
    ToUnixIsInverse(b);
    ToUnixIsInverse(d);
    BeforeIsChronological(a, b);
    BeforeIsChronological(a, d);
    SkippedMilestoneOutcome(ToUnix(a), ToUnix(b), ToUnix(b));
    SkippedMilestoneOutcome(ToUnix(a), ToUnix(d), ToUnix(d));
  }

  // ---- The placeholder date ----

  /** The date stored at creation lies in 1970 or earlier exactly when the first milestone is below this bound. */
  lemma PlaceholderIsEarly(ms: seq<int>)
    requires ms != []
    ensures Created(ms).value.project.next < 31536000 <==> ms[0] < 31536000000
  {
  }

  predicate BeforeFirstTick(p: Project, m: int) {
    p.milestones != [] && p.milestones[0] == m && p.next == TruncDiv(m, 1000)
  }

  /** For a first milestone in seconds of an ordinary date, the first tick in the milestone phase sets the next date to
      exactly that milestone and puts the project on schedule; over whatever follows, further ticks included, the date
      stays until a passed check moves it on. */
  lemma FirstTickSetsFirstMilestone(w: World, m: int, now: int, later: seq<Event>)
    requires BeforeFirstTick(w.project, m) && Sorted(w.project.milestones)
    requires 31536000 <= m < 31536000000 && now >= 31536000 && w.project.status == MilestonePhase
    requires Timed(now, later) && NoRecovery(later)
    ensures OnTick(w, now).project == w.project.(next := m) && OnSchedule(OnTick(w, now).project, now)
    ensures LastPass(OnTick(w, now), later).None? ==> ORun(OnTick(w, now), later).project.next == m
  {
    ScheduleOverRuns(OnTick(w, now), later, now);
  }

  /** Until that tick nothing but a passed check or a recovery touches the placeholder. */
  lemma PlaceholderStays(w: World, e: Event)
    requires !Recovers(e) && !Passes(w, e) && !(e.Ticked? && w.project.status == MilestonePhase)
    ensures OStep(w, e).project.next == w.project.next
  {
    if e.Reported? && e.response.parent < |w.activities| && e.response.kind == CheckMilestone
       && w.project.funding.Some?
    {
      RefundFanOut(Succeed(w, e.response.parent).(project := w.project.(status := MilestoneFailed)),
                   w.project.funding.value.backers);
    }
  }

  /** A tick of the scheduler that looks at the date. */
  predicate TicksInPhase(w: World, e: Event) {
    e.Ticked? && Selected(w.project) && w.project.status == MilestonePhase
  }

  ghost predicate TickedInPhase(w: World, events: seq<Event>)
    decreases |events|
  {
    events != [] && (TicksInPhase(w, events[0]) || TickedInPhase(OStep(w, events[0]), events[1..]))
  }

  /** The date once the first tick in the milestone phase has been, before any check has moved it. */
  function FirstDate(m: int): int {
    if TruncDiv(m, 1000) < 31536000 then m else TruncDiv(m, 1000)
  }

  predicate Unchecked(p: Project, m: int) {
    p.milestones != [] && p.milestones[0] == m && p.next in {TruncDiv(m, 1000), FirstDate(m)}
  }

  lemma UncheckedStep(w: World, e: Event, m: int)
    requires Unchecked(w.project, m) && !Recovers(e)
    requires !(Passes(w, e) && NextIndex(w.project.milestones, TimeOf(e)) < |w.project.milestones|)
    ensures Unchecked(OStep(w, e).project, m)
    ensures OStep(w, e).project.milestones == w.project.milestones
    ensures OStep(w, e).project.next == if TicksInPhase(w, e) then FirstDate(m) else w.project.next
  {
    MilestonesStay(w, e);
    if Passes(w, e) {
      PassAdvances(w, e);
    } else if !TicksInPhase(w, e) {
      if !e.Ticked? { PlaceholderStays(w, e); }
    }
  }

  lemma PassPutsOnSchedule(w: World, e: Event, m: int)
    requires Unchecked(w.project, m) && Sorted(w.project.milestones) && TimeOf(e) >= 31536000
    requires Passes(w, e) && NextIndex(w.project.milestones, TimeOf(e)) < |w.project.milestones|
    ensures OnSchedule(OStep(w, e).project, TimeOf(e))
    ensures OStep(w, e).project.milestones == w.project.milestones
    ensures OStep(w, e).project.next == w.project.milestones[NextIndex(w.project.milestones, TimeOf(e))]
  {
    PassAdvances(w, e);
    NextIsLeast(w.project.milestones, TimeOf(e));
  }

  lemma {:induction false} DateFromUnchecked(w: World, events: seq<Event>, clock: int, m: int)
    requires Unchecked(w.project, m) && Sorted(w.project.milestones) && clock >= 31536000
    requires Timed(clock, events) && NoRecovery(events)
    ensures var ms, next := w.project.milestones, ORun(w, events).project.next;
            match LastPass(w, events)
            case Some(t) => NextIndex(ms, t) < |ms| && next == ms[NextIndex(ms, t)]
            case None => next == if TickedInPhase(w, events) then FirstDate(m) else w.project.next
    decreases |events|
  {
    if events != [] {
      var e, rest, ms := events[0], events[1..], w.project.milestones;
      assert !Recovers(e);
      assert forall i :: 0 <= i < |rest| ==> rest[i] == events[i + 1];
      if Passes(w, e) && NextIndex(ms, TimeOf(e)) < |ms| {
        PassPutsOnSchedule(w, e, m);
        ScheduleOverRuns(OStep(w, e), rest, TimeOf(e));
      } else {
        UncheckedStep(w, e, m);
        DateFromUnchecked(OStep(w, e), rest, TimeOf(e), m);
      }
    }
  }

  /** The hand-over of the placeholder, from creation over any timed run without fund recovery. Until a passed check
      moves the date on, it is the placeholder as long as no tick has found the project in its milestone phase, and
      from the first such tick on it is exactly the first milestone, however many ticks follow; afterwards it is the
      least milestone after the latest passed check that had one. The first milestone must only lie below the bound
      under which its thousandth is a date of 1970 or earlier. */
  lemma PlaceholderHandOver(ms: seq<int>, events: seq<Event>, clock: int)
    requires ms != [] && Sorted(ms) && clock >= 31536000 && Timed(clock, events) && NoRecovery(events)
    ensures var w := Created(ms).value;
            var next := ORun(w, events).project.next;
            match LastPass(w, events)
            case Some(t) => NextIndex(ms, t) < |ms| && next == ms[NextIndex(ms, t)]
            case None =>
              next == if TickedInPhase(w, events) && ms[0] < 31536000000 then ms[0] else TruncDiv(ms[0], 1000)
  {
    PlaceholderIsEarly(ms);
    DateFromUnchecked(Created(ms).value, events, clock, ms[0]);
  }
}
