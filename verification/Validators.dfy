/** The checks a deployment request passes before its transaction is stored. */
module Validators {
  import opened Transactions
  import opened VoteCodec

  datatype Refusal =
    | InvalidFormat
    | MilestonePast
    | IntervalTooShort
    | IntervalTooLong
    | PercentagesNot100

  datatype Outcome = Ready(times: seq<int>, percents: seq<int>) | Refused(reason: Refusal)

  /** The configured bounds on the distance between milestones, and the time of the request, in seconds. */
  datatype Limits = Limits(now: int, min: int, max: int)

  // ---- What each entry is checked against ----

  function Previous(l: Limits, values: seq<JsValue>, i: nat): int
    requires i < |values|
    requires forall j :: 0 <= j < i ==> values[j].JsNumber?
  {
    if i == 0 then l.now else values[i - 1].n
  }

  /** The first test entry `i` fails, when the entries before it are numbers. */
  function EntryFault(l: Limits, values: seq<JsValue>, i: nat): Option<Refusal>
    requires i < |values|
    requires forall j :: 0 <= j < i ==> values[j].JsNumber?
  {
    if !values[i].JsNumber? then Some(InvalidFormat)
    else
      var previous := Previous(l, values, i);
      if values[i].n < l.now then Some(MilestonePast)
      else if l.min > values[i].n - previous && previous != l.now then Some(IntervalTooShort)
      else if l.max < values[i].n - previous then Some(IntervalTooLong)
      else None
  }

  /** The fault of the first faulty entry from `i` on. */
  function FirstFault(l: Limits, values: seq<JsValue>, i: nat): Option<Refusal>
    requires i <= |values|
    requires forall j :: 0 <= j < i ==> values[j].JsNumber?
    decreases |values| - i
  {
    if i == |values| then None
    else if EntryFault(l, values, i).Some? then EntryFault(l, values, i)
    else FirstFault(l, values, i + 1)
  }

  predicate AllNumbers(values: seq<JsValue>) {
    forall i :: 0 <= i < |values| ==> values[i].JsNumber?
  }

  function NumbersOf(values: seq<JsValue>): seq<int>
    requires AllNumbers(values)
  {
    seq(|values|, i requires 0 <= i < |values| => values[i].n)
  }

  function Sum(s: seq<int>): int {
    if s == [] then 0 else Sum(s[..|s| - 1]) + s[|s| - 1]
  }

  lemma {:induction false} FaultFree(l: Limits, values: seq<JsValue>, i: nat)
    requires i <= |values|
    requires forall j :: 0 <= j < i ==> values[j].JsNumber?
    ensures FirstFault(l, values, i) == None ==> AllNumbers(values)
    decreases |values| - i
  {
    if i < |values| && EntryFault(l, values, i) == None { FaultFree(l, values, i + 1); }
  }

  // ---- The whole check ----

  /** A text is split into strings, and the entries must be numbers. */
  function EntriesOf(input: Input): Option<seq<JsValue>> {
    match input
    case TextInput(text) => Some(seq(|Pieces(text)|, i requires 0 <= i < |Pieces(text)| => JsString(Pieces(text)[i])))
    case ArrayInput(values) => Some(values)
    case OtherInput => None
  }

  function CheckPercents(input: Input): Option<Refusal> {
    var entries := EntriesOf(input);
    if entries.None? || !AllNumbers(entries.value) then Some(InvalidFormat)
    else if Sum(NumbersOf(entries.value)) != 100 then Some(PercentagesNot100)
    else None
  }

  function CheckMilestones(l: Limits, input: Input): Option<Refusal> {
    var entries := EntriesOf(input);
    if entries.None? then Some(InvalidFormat) else FirstFault(l, entries.value, 0)
  }

  /** The milestones are checked completely before the percentages. */
  function Validate(l: Limits, milestones: Input, percents: Input): Outcome {
    var m, p := CheckMilestones(l, milestones), CheckPercents(percents);
    if m.Some? then Refused(m.value)
    else if p.Some? then Refused(p.value)
    else
      FaultFree(l, EntriesOf(milestones).value, 0);
      Ready(NumbersOf(EntriesOf(milestones).value), NumbersOf(EntriesOf(percents).value))
  }

  // ---- Which schedules pass ----

  /** No milestone is in the past; the first `k` are the time of the request; the next is later by at most the maximum;
      every later gap is within the bounds. */
  predicate Shape(l: Limits, times: seq<int>, k: nat) {
    && k <= |times|
    && (forall i :: 0 <= i < |times| ==> l.now <= times[i])
    && (forall i :: 0 <= i < k ==> times[i] == l.now)
    && (k > 0 ==> 0 <= l.max)
    && (k < |times| ==> l.now < times[k] <= l.now + l.max)
    && (forall i :: k < i < |times| ==> l.min <= times[i] - times[i - 1] <= l.max)
  }

  function Numbers(times: seq<int>): (values: seq<JsValue>)
    ensures AllNumbers(values) && NumbersOf(values) == times
  {
    seq(|times|, i requires 0 <= i < |times| => JsNumber(times[i]))
  }

  predicate Passes(l: Limits, times: seq<int>) {
    FirstFault(l, Numbers(times), 0) == None
  }

  lemma {:induction false} NoFaultAnywhere(l: Limits, values: seq<JsValue>, i: nat)
    requires i <= |values| && AllNumbers(values)
    ensures FirstFault(l, values, i) == None
            <==> forall j :: i <= j < |values| ==> EntryFault(l, values, j) == None
    decreases |values| - i
  {
    if i < |values| { NoFaultAnywhere(l, values, i + 1); }
  }

  /** The leading entries equal to the time of the request. */
  function Leading(now: int, times: seq<int>): (k: nat)
    ensures k <= |times| && (forall i :: 0 <= i < k ==> times[i] == now) && (k < |times| ==> times[k] != now)
  {
    if times == [] || times[0] != now then 0 else 1 + Leading(now, times[1..])
  }

  /** Once past the time of the request a passing schedule with a nonnegative minimum never returns to it. */
  lemma {:induction false} StaysAbove(l: Limits, times: seq<int>, k: nat, i: nat)
    requires l.min >= 0 && k <= i < |times| && times[k] > l.now
    requires forall j :: 0 <= j < |times| ==> EntryFault(l, Numbers(times), j) == None
    ensures times[i] > l.now
  {
    if i > k {
      StaysAbove(l, times, k, i - 1);
      assert EntryFault(l, Numbers(times), i) == None;
    }
  }

  lemma PassingHasShape(l: Limits, times: seq<int>)
    requires Passes(l, times)
    ensures Shape(l, times, Leading(l.now, times))
  {
    var values, k := Numbers(times), Leading(l.now, times);
    NoFaultAnywhere(l, values, 0);
    forall i | 0 <= i < |times|
      ensures l.now <= times[i]
    {
      assert EntryFault(l, values, i) == None;
    }
    if k > 0 { assert EntryFault(l, values, 0) == None; }
    if k < |times| { assert EntryFault(l, values, k) == None; }
    forall i | k < i < |times|
      ensures l.min <= times[i] - times[i - 1] <= l.max
    {
      if l.min >= 0 { StaysAbove(l, times, k, i - 1); }
      assert EntryFault(l, values, i) == None;
    }
  }

  lemma ShapedPasses(l: Limits, times: seq<int>, k: nat)
    requires Shape(l, times, k)
    ensures Passes(l, times)
  {
    NoFaultAnywhere(l, Numbers(times), 0);
  }

  /** A request is ready with exactly these milestones and percentages if and only if they were sent as arrays of
      numbers, the milestones have the shape, and the percentages add up to one hundred. Nothing is altered on the
      way, and percentages are not bounded one by one. */
  lemma ReadyExactly(l: Limits, milestones: Input, percents: Input, times: seq<int>, shares: seq<int>)
    ensures Validate(l, milestones, percents) == Ready(times, shares)
            <==> milestones == ArrayInput(Numbers(times)) && percents == ArrayInput(Numbers(shares))
                 && Sum(shares) == 100 && exists k :: Shape(l, times, k)
  {
    if Validate(l, milestones, percents).Ready? {
      if !milestones.ArrayInput? { TextRefused(l, milestones, percents); }
      if !percents.ArrayInput? { TextRefused(l, percents, milestones); }
      FaultFree(l, EntriesOf(milestones).value, 0);
      var m, p := milestones.values, percents.values;
      assert Numbers(NumbersOf(m)) == m && Numbers(NumbersOf(p)) == p;
      PassingHasShape(l, NumbersOf(m));
    }
    if exists k :: Shape(l, times, k) {
      var k :| Shape(l, times, k);
      ShapedPasses(l, times, k);
    }
  }

  /** Text, or a value that is no array, is refused for its format in either place, whatever it says. */
  lemma TextRefused(l: Limits, input: Input, other: Input)
    requires !input.ArrayInput?
    ensures CheckMilestones(l, input) == Some(InvalidFormat) && CheckPercents(input) == Some(InvalidFormat)
    ensures Validate(l, input, other) == Refused(InvalidFormat)
  {
    if input.TextInput? {
      assert !EntriesOf(input).value[0].JsNumber?;
    }
  }

  // ---- Why a request is refused ----

  /** Entry `i` is a number that passes: not in the past, far enough from a milestone after the request, near enough. */
  predicate Good(l: Limits, values: seq<JsValue>, i: nat)
    requires i < |values|
  {
    && values[i].JsNumber? && values[i].n >= l.now
    && (i == 0 || values[i - 1].JsNumber?)
    && var previous := if i == 0 then l.now else values[i - 1].n;
       (previous == l.now || values[i].n - previous >= l.min) && values[i].n - previous <= l.max
  }

  /** Entry `i` is the first that does not pass, and this is what is wrong with it, the first thing in the order of the
      tests. */
  predicate FailsFor(l: Limits, values: seq<JsValue>, i: nat, reason: Refusal)
    requires i < |values|
  {
    && (forall j :: 0 <= j < i ==> Good(l, values, j))
    && (i == 0 || values[i - 1].JsNumber?)
    && var previous := if i == 0 then l.now else values[i - 1].n;
       match reason
       case InvalidFormat => !values[i].JsNumber?
       case MilestonePast => values[i].JsNumber? && values[i].n < l.now
       case IntervalTooShort =>
         values[i].JsNumber? && values[i].n >= l.now && previous != l.now && values[i].n - previous < l.min
       case IntervalTooLong =>
         values[i].JsNumber? && values[i].n >= l.now && (previous == l.now || values[i].n - previous >= l.min)
         && values[i].n - previous > l.max
       case PercentagesNot100 => false
  }

  lemma GoodIsFaultFree(l: Limits, values: seq<JsValue>, i: nat)
    requires i < |values| && forall j :: 0 <= j < i ==> values[j].JsNumber?
    ensures EntryFault(l, values, i) == None <==> Good(l, values, i)
  {
  }

  lemma FaultIsReason(l: Limits, values: seq<JsValue>, i: nat, reason: Refusal)
    requires i < |values| && (forall j :: 0 <= j < i ==> values[j].JsNumber?)
    requires forall j :: 0 <= j < i ==> Good(l, values, j)
    ensures EntryFault(l, values, i) == Some(reason) <==> FailsFor(l, values, i, reason)
  {
  }

  lemma {:induction false} FirstFaultFrom(l: Limits, values: seq<JsValue>, i: nat, reason: Refusal)
    requires i <= |values| && (forall j :: 0 <= j < i ==> values[j].JsNumber?)
    requires forall j :: 0 <= j < i ==> Good(l, values, j)
    ensures FirstFault(l, values, i) == Some(reason)
            <==> exists k :: i <= k < |values| && FailsFor(l, values, k, reason)
    decreases |values| - i
  {
    if i < |values| {
      FaultIsReason(l, values, i, reason);
      GoodIsFaultFree(l, values, i);
      if EntryFault(l, values, i) == None {
        FirstFaultFrom(l, values, i + 1, reason);
        assert !FailsFor(l, values, i, reason);
      } else {
        forall k | i < k < |values|
          ensures !FailsFor(l, values, k, reason)
        {
          assert !Good(l, values, i);
        }
      }
    }
  }

  /** An array of milestones is refused for a reason if and only if its first entry that does not pass fails for it. */
  lemma RefusedExactly(l: Limits, values: seq<JsValue>, reason: Refusal)
    ensures CheckMilestones(l, ArrayInput(values)) == Some(reason)
            <==> exists k :: 0 <= k < |values| && FailsFor(l, values, k, reason)
  {
    FirstFaultFrom(l, values, 0, reason);
  }

  /** Percentages are refused for their format or their sum, and only once the milestones have passed. */
  lemma PercentsRefusedExactly(l: Limits, milestones: Input, values: seq<JsValue>)
    requires CheckMilestones(l, milestones) == None
    ensures Validate(l, milestones, ArrayInput(values)) == Refused(InvalidFormat)
            <==> exists i :: 0 <= i < |values| && !values[i].JsNumber?
    ensures Validate(l, milestones, ArrayInput(values)) == Refused(PercentagesNot100)
            <==> AllNumbers(values) && Sum(NumbersOf(values)) != 100
  {
    FaultFree(l, EntriesOf(milestones).value, 0);
  }

  // ---- What the shape gives ----

  lemma {:induction false} Nondecreasing(l: Limits, times: seq<int>, i: nat, j: nat)
    requires l.min >= 0 && Passes(l, times) && i <= j < |times|
    ensures l.now <= times[i] <= times[j]
    decreases j
  {
    PassingHasShape(l, times);
    if i < j { Nondecreasing(l, times, i, j - 1); }
  }

  lemma {:induction false} WithinReach(l: Limits, times: seq<int>, i: nat)
    requires Passes(l, times) && i < |times|
    ensures times[i] <= l.now + (i + 1) * l.max
  {
    PassingHasShape(l, times);
    if i > 0 { WithinReach(l, times, i - 1); }
    assert (i + 1) * l.max == i * l.max + l.max;
    NonnegativeProduct(i, l.max);
  }

  lemma NonnegativeProduct(i: nat, m: int)
    ensures m >= 0 ==> i * m >= 0
  {
  }

  lemma {:induction false} Spread(l: Limits, times: seq<int>, k: nat, i: nat)
    requires Shape(l, times, k) && k <= i < |times|
    ensures (i - k) * l.min <= times[i] - times[k]
  {
    if i > k {
      Spread(l, times, k, i - 1);
      assert (i - k) * l.min == (i - 1 - k) * l.min + l.min;
    }
  }

  /** How many milestones lie after the time of the request is limited by the time they span. */
  lemma CountBound(l: Limits, times: seq<int>)
    requires l.min > 0 && Passes(l, times)
    ensures var k := Leading(l.now, times);
            k < |times| ==> |times| - k <= 1 + (times[|times| - 1] - times[k]) / l.min
  {
    var k := Leading(l.now, times);
    if k < |times| {
      assert Shape(l, times, k) by { PassingHasShape(l, times); }
      SpreadBound(l, times, k);
    }
  }

  lemma SpreadBound(l: Limits, times: seq<int>, k: nat)
    requires l.min > 0 && Shape(l, times, k) && k < |times|
    ensures |times| - k <= 1 + (times[|times| - 1] - times[k]) / l.min
  {
    var steps, span := |times| - 1 - k, times[|times| - 1] - times[k];
    Spread(l, times, k, |times| - 1);
    QuotientBound(steps, span, l.min);
  }

  lemma QuotientBound(c: nat, d: int, m: int)
    requires m > 0 && c * m <= d
    ensures c <= d / m
  {
    if d / m < c {
      assert d == m * (d / m) + d % m;
      ProductMonotone(d / m + 1, c, m);
    }
  }

  lemma ProductMonotone(a: int, b: int, m: int)
    requires a <= b && m >= 0
    ensures a * m <= b * m
  {
    assert (b - a) * m == b * m - a * m;
    NonnegativeProduct(b - a, m);
  }

  // ---- When the minimum is negative ----

  predicate Sorted(times: seq<int>) {
    forall i, j :: 0 <= i <= j < |times| ==> times[i] <= times[j]
  }

  /** With a maximum below one only the time of the request itself can pass. */
  lemma {:induction false} OnlyNow(l: Limits, times: seq<int>, i: nat)
    requires l.max < 1 && Passes(l, times) && i < |times|
    ensures times[i] == l.now
  {
    NoFaultAnywhere(l, Numbers(times), 0);
    if i > 0 { OnlyNow(l, times, i - 1); }
    assert EntryFault(l, Numbers(times), i) == None;
  }

  /** Passing schedules are in order, whatever they are, if and only if the configured minimum is not negative or the
      maximum admits no later time at all. */
  lemma OrderedExactlyWhen(l: Limits)
    ensures (forall times :: Passes(l, times) ==> Sorted(times)) <==> l.min >= 0 || l.max < 1
  {
    if l.min >= 0 || l.max < 1 {
      forall times | Passes(l, times)
        ensures Sorted(times)
      {
        forall i, j | 0 <= i <= j < |times|
          ensures times[i] <= times[j]
        {
          if l.min >= 0 {
            Nondecreasing(l, times, i, j);
          } else {
            OnlyNow(l, times, i);
            OnlyNow(l, times, j);
          }
        }
      }
    } else {
      var times := [l.now + 1, l.now];
      var values := Numbers(times);
      NoFaultAnywhere(l, values, 0);
      assert EntryFault(l, values, 0) == None && EntryFault(l, values, 1) == None;
      assert Passes(l, times) && times[0] > times[1];
    }
  }

  // ---- The checks as written ----

  /** The loop that keeps the previous milestone. */
  method ConvertMilestones(l: Limits, values: seq<JsValue>) returns (fault: Option<Refusal>, times: seq<int>)
    ensures fault == FirstFault(l, values, 0)
    ensures fault == None ==> AllNumbers(values) && times == NumbersOf(values)
  {
    var previousMilestone := l.now;
    times := [];
    var i := 0;
    while i < |values|
      invariant i <= |values| && |times| == i
      invariant forall j :: 0 <= j < i ==> values[j].JsNumber? && times[j] == values[j].n
      invariant previousMilestone == if i == 0 then l.now else values[i - 1].n
      invariant FirstFault(l, values, 0) == FirstFault(l, values, i)
    {
      if !values[i].JsNumber? { return Some(InvalidFormat), times; }
      var ms := values[i].n;
      var timeDiff := ms - previousMilestone;
      if ms - l.now < 0 { return Some(MilestonePast), times; }
      if l.min > timeDiff && previousMilestone != l.now { return Some(IntervalTooShort), times; }
      if l.max < timeDiff { return Some(IntervalTooLong), times; }
      previousMilestone := ms;
      times := times + [ms];
      i := i + 1;
    }
    return None, times;
  }

  /** The loop that adds up the percentages. */
  method ConvertPercents(values: seq<JsValue>) returns (fault: Option<Refusal>, percents: seq<int>)
    ensures fault == CheckPercents(ArrayInput(values))
    ensures fault == None ==> AllNumbers(values) && percents == NumbersOf(values)
  {
    var cumulativePercentage := 0;
    percents := [];
    var i := 0;
    while i < |values|
      invariant i <= |values| && |percents| == i
      invariant forall j :: 0 <= j < i ==> values[j].JsNumber? && percents[j] == values[j].n
      invariant cumulativePercentage == Sum(percents)
    {
      if !values[i].JsNumber? { return Some(InvalidFormat), percents; }
      cumulativePercentage := cumulativePercentage + values[i].n;
      assert (percents + [values[i].n])[..|percents|] == percents;
      percents := percents + [values[i].n];
      i := i + 1;
    }
    assert percents == NumbersOf(values);
    if cumulativePercentage != 100 { return Some(PercentagesNot100), percents; }
    return None, percents;
  }

  method DeployChecks(l: Limits, milestones: Input, percents: Input) returns (outcome: Outcome)
    ensures outcome == Validate(l, milestones, percents)
  {
    var milestoneEntries := EntriesOf(milestones);
    if milestoneEntries.None? { return Refused(InvalidFormat); }
    var milestoneFault, times := ConvertMilestones(l, milestoneEntries.value);
    if milestoneFault.Some? { return Refused(milestoneFault.value); }
    var percentEntries := EntriesOf(percents);
    if percentEntries.None? { return Refused(InvalidFormat); }
    var percentFault, shares := ConvertPercents(percentEntries.value);
    assert CheckPercents(percents) == CheckPercents(ArrayInput(percentEntries.value));
    if percentFault.Some? { return Refused(percentFault.value); }
    return Ready(times, shares);
  }
}
