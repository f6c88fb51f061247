/** Moderation votes: rows, the threshold, and the arrays that are committed. */
module Votes {
  import opened Transactions
  import O = OracleSpec
  import S = OracleService

  datatype VoteRow = VoteRow(project: int, user: int, moderation: bool, vote: bool, key: string, seal: string)

  /** One entry of each of the three committed arrays. */
  datatype Ballot = Ballot(vote: bool, key: string, user: int)

  datatype Arrays = Arrays(votes: seq<bool>, keys: seq<string>, users: seq<int>)

  datatype State = State(rows: seq<VoteRow>, commits: seq<(int, Arrays)>)

  const EMPTY_STATE := State([], [])

  const THRESHOLD := 7

  datatype Event =
    | Submitted(project: int, user: int, voteType: int, vote: bool, key: string, seal: string)
    | Confirmed(project: int, kind: O.VoteKind, events: O.Payload)

  /** A confirmation whose events can be read. */
  predicate Confirms(e: Event) {
    e.Confirmed? && O.LastVote(e.kind, e.events).Some?
  }

  // ---- Rows of one project ----

  function RowsOf(rows: seq<VoteRow>, project: int): seq<VoteRow> {
    if rows == [] then []
    else RowsOf(rows[..|rows| - 1], project)
         + (if rows[|rows| - 1].project == project then [rows[|rows| - 1]] else [])
  }

  function ModerationCount(rows: seq<VoteRow>, project: int): nat {
    if rows == [] then 0
    else ModerationCount(rows[..|rows| - 1], project)
         + (if rows[|rows| - 1].project == project && rows[|rows| - 1].moderation then 1 else 0)
  }

  /** A row's entry: a moderation vote's own values, blanks for a milestone vote. */
  function BallotOf(row: VoteRow): Ballot {
    if row.moderation then Ballot(row.vote, row.key, row.user) else Ballot(false, "", 0)
  }

  function ArraysOf(rows: seq<VoteRow>): Arrays {
    Arrays(seq(|rows|, i requires 0 <= i < |rows| => BallotOf(rows[i]).vote),
            seq(|rows|, i requires 0 <= i < |rows| => BallotOf(rows[i]).key),
            seq(|rows|, i requires 0 <= i < |rows| => BallotOf(rows[i]).user))
  }

  // ---- Steps ----

  /** The row an event stores. */
  function NewRow(e: Event): VoteRow
    requires e.Confirmed? ==> Confirms(e)
  {
    if e.Submitted? then VoteRow(e.project, e.user, true, e.vote, e.key, e.seal)
    else
      var (user, vote) := O.LastVote(e.kind, e.events).value;
      VoteRow(e.project, user, !e.kind.MilestoneKind?, vote, "", "")
  }

  /** Whether an event stores a row. */
  predicate Stores(e: Event) {
    if e.Submitted? then e.voteType == 1 else Confirms(e)
  }

  /** Only moderation votes are stored when they are submitted. */
  function OnSubmit(s: State, e: Event): State
    requires e.Submitted?
  {
    if e.voteType == 1 then s.(rows := s.rows + [NewRow(e)]) else s
  }

  /** A confirmation that can be read stores a second row, without key; a moderation confirmation also without the vote.
      When a moderation confirmation finds enough moderation rows the project's whole set is committed. */
  function OnConfirm(s: State, e: Event): State
    requires e.Confirmed?
  {
    if !Confirms(e) then s
    else
      var s1 := s.(rows := s.rows + [NewRow(e)]);
      if e.kind.ModerationKind? && ModerationCount(s1.rows, e.project) >= THRESHOLD then
        s1.(commits := s1.commits + [(e.project, ArraysOf(RowsOf(s1.rows, e.project)))])
      else s1
  }

  function Step(s: State, e: Event): State {
    if e.Submitted? then OnSubmit(s, e) else OnConfirm(s, e)
  }

  function Run(events: seq<Event>): State {
    if events == [] then EMPTY_STATE else Step(Run(events[..|events| - 1]), events[|events| - 1])
  }

  lemma RunSnoc(events: seq<Event>, e: Event)
    ensures Run(events + [e]) == Step(Run(events), e)
  {
    assert (events + [e])[..|events|] == events;
  }

  // ---- What the history says ----

  predicate IsSubmission(e: Event, project: int) {
    e.Submitted? && e.voteType == 1 && e.project == project
  }

  predicate IsConfirmation(e: Event, project: int) {
    Confirms(e) && !e.kind.MilestoneKind? && e.project == project
  }

  function Submissions(events: seq<Event>, project: int): nat {
    if events == [] then 0
    else Submissions(events[..|events| - 1], project) + (if IsSubmission(events[|events| - 1], project) then 1 else 0)
  }

  function Confirmations(events: seq<Event>, project: int): nat {
    if events == [] then 0
    else Confirmations(events[..|events| - 1], project)
         + (if IsConfirmation(events[|events| - 1], project) then 1 else 0)
  }

  /** The votes submitted with a key, in order of submission. */
  function KeyedVotes(events: seq<Event>, project: int): seq<Ballot> {
    if events == [] then []
    else
      var e := events[|events| - 1];
      KeyedVotes(events[..|events| - 1], project)
      + (if IsSubmission(e, project) && e.key != "" then [Ballot(e.vote, e.key, e.user)] else [])
  }

  /** The entries of a payload that carry a key, in order. */
  function KeyedBallots(p: Arrays): seq<Ballot>
    requires |p.votes| == |p.keys| == |p.users|
    decreases |p.votes|
  {
    if p.votes == [] then []
    else
      var n := |p.votes| - 1;
      KeyedBallots(Arrays(p.votes[..n], p.keys[..n], p.users[..n]))
      + (if p.keys[n] != "" then [Ballot(p.votes[n], p.keys[n], p.users[n])] else [])
  }

  // ---- The row count is submissions plus confirmations ----

  lemma StepAddsRow(s: State, e: Event)
    ensures Step(s, e).rows == if Stores(e) then s.rows + [NewRow(e)] else s.rows
  {
  }

  lemma RowsSnoc(rows: seq<VoteRow>, row: VoteRow, project: int)
    ensures ModerationCount(rows + [row], project)
            == ModerationCount(rows, project) + (if row.project == project && row.moderation then 1 else 0)
    ensures RowsOf(rows + [row], project) == RowsOf(rows, project) + (if row.project == project then [row] else [])
  {
    assert (rows + [row])[..|rows|] == rows;
  }

  lemma {:induction false} CountIsBoth(events: seq<Event>, project: int)
    ensures ModerationCount(Run(events).rows, project) == Submissions(events, project) + Confirmations(events, project)
  {
    if events != [] {
      var init, e := events[..|events| - 1], events[|events| - 1];
      CountIsBoth(init, project);
      if Stores(e) { RowsSnoc(Run(init).rows, NewRow(e), project); }
    }
  }

  /** An event commits exactly when it is a readable confirmation of a moderation vote and submissions and confirmations
      together reach seven: neither a submission nor the confirmation of a milestone vote ever commits. */
  lemma CommitsAtSevenRows(events: seq<Event>, e: Event)
    ensures var now := events + [e];
            |Run(now).commits| > |Run(events).commits|
            <==> Confirms(e) && e.kind.ModerationKind?
                 && Submissions(now, e.project) + Confirmations(now, e.project) >= 7
  {
    RunSnoc(events, e);
    CountIsBoth(events + [e], e.project);
  }

  /** With at most one confirmation per submission a commit means at least four submissions. */
  lemma CommitNeedsFourSubmissions(events: seq<Event>, e: Event)
    requires Confirms(e) && e.kind.ModerationKind?
    requires Confirmations(events + [e], e.project) <= Submissions(events + [e], e.project)
    requires |Run(events + [e]).commits| > |Run(events).commits|
    ensures Submissions(events + [e], e.project) >= 4
  {
    CommitsAtSevenRows(events, e);
  }

  function Example(n: nat): Event {
    Submitted(1, n, 1, true, "key", "seal")
  }

  function FourVotes(): seq<Event> {
    [Example(0)] + [Example(1)] + [Example(2)] + [Example(3)]
  }

  lemma CountsOfFour()
    ensures Submissions(FourVotes(), 1) == 4 && Confirmations(FourVotes(), 1) == 0
  {
    assert [] + [Example(0)] == [Example(0)];
    CountSnoc([], Example(0), 1);
    CountSnoc([Example(0)], Example(1), 1);
    CountSnoc([Example(0)] + [Example(1)], Example(2), 1);
    CountSnoc([Example(0)] + [Example(1)] + [Example(2)], Example(3), 1);
  }

  /** Four submissions and two confirmations. */
  function SixRows(e: Event): seq<Event> {
    FourVotes() + [e] + [e]
  }

  lemma CountsOfSeven(e: Event)
    requires e == Confirmed(1, O.ModerationKind, O.Items([]))
    ensures Submissions(SixRows(e) + [e], 1) == 4 && Confirmations(SixRows(e) + [e], 1) == 3
  {
    CountsOfFour();
    CountSnoc(FourVotes(), e, 1);
    CountSnoc(FourVotes() + [e], e, 1);
    CountSnoc(SixRows(e), e, 1);
  }

  lemma SevenRowsCommit(e: Event)
    requires e == Confirmed(1, O.ModerationKind, O.Items([]))
    ensures Confirms(e) && |Run(SixRows(e) + [e]).commits| > |Run(SixRows(e)).commits|
  {
    CountsOfSeven(e);
    CommitsAtSevenRows(SixRows(e), e);
  }

  /** Four are enough: seven submissions are not needed for a commit. */
  lemma FourSubmissionsCommit()
    ensures exists events: seq<Event>, e: Event ::
              && Confirms(e) && e.kind.ModerationKind? && Submissions(events + [e], e.project) == 4
              && Confirmations(events + [e], e.project) == 3
              && |Run(events + [e]).commits| > |Run(events).commits|
  {
    var e := Confirmed(1, O.ModerationKind, O.Items([]));
    CountsOfSeven(e);
    SevenRowsCommit(e);
  }

  lemma CountSnoc(events: seq<Event>, e: Event, project: int)
    ensures Submissions(events + [e], project)
            == Submissions(events, project) + (if IsSubmission(e, project) then 1 else 0)
    ensures Confirmations(events + [e], project)
            == Confirmations(events, project) + (if IsConfirmation(e, project) then 1 else 0)
  {
    assert (events + [e])[..|events|] == events;
  }

  // ---- The committed arrays ----

  /** The three arrays have the length of the project's rows. Entry `i` of each is the vote, the key and the user of row
      `i` if that is a moderation vote, with a key or without; any other row leaves false, no key and user zero. */
  lemma ArraysAreAligned(rows: seq<VoteRow>)
    ensures var p := ArraysOf(rows);
            && |p.votes| == |p.keys| == |p.users| == |rows|
            && forall i :: 0 <= i < |rows| ==>
                 if rows[i].moderation
                 then p.votes[i] == rows[i].vote && p.keys[i] == rows[i].key && p.users[i] == rows[i].user
                 else !p.votes[i] && p.keys[i] == "" && p.users[i] == 0
  {
  }

  /** The triples of the arrays, in order. */
  function Triples(p: Arrays): seq<Ballot>
    requires |p.votes| == |p.keys| == |p.users|
  {
    seq(|p.votes|, i requires 0 <= i < |p.votes| => Ballot(p.votes[i], p.keys[i], p.users[i]))
  }

  /** What an event of a project contributes to what would be committed: a submission its vote, key and user; the
      confirmation of a moderation vote its user only; the confirmation of a milestone vote a blank. */
  function Contribution(e: Event, project: int): seq<Ballot> {
    if e.project != project then []
    else if e.Submitted? then (if e.voteType == 1 then [Ballot(e.vote, e.key, e.user)] else [])
    else if O.LastVote(e.kind, e.events).None? then []
    else if e.kind.MilestoneKind? then [Ballot(false, "", 0)]
    else [Ballot(false, "", O.LastVote(e.kind, e.events).value.0)]
  }

  function Contributions(events: seq<Event>, project: int): seq<Ballot> {
    if events == [] then []
    else Contributions(events[..|events| - 1], project) + Contribution(events[|events| - 1], project)
  }

  lemma TriplesSnoc(rows: seq<VoteRow>, row: VoteRow)
    ensures Triples(ArraysOf(rows + [row])) ==
            Triples(ArraysOf(rows)) +
              [if row.moderation then Ballot(row.vote, row.key, row.user) else Ballot(false, "", 0)]
  {
    var all, front := Triples(ArraysOf(rows + [row])), Triples(ArraysOf(rows));
    assert |all| == |front| + 1;
    assert forall i :: 0 <= i < |front| ==> all[i] == front[i];
  }

  lemma RowIsContribution(e: Event)
    requires Stores(e)
    ensures NewRow(e).project == e.project
    ensures var row := NewRow(e);
            Contribution(e, e.project)
            == [if row.moderation then Ballot(row.vote, row.key, row.user) else Ballot(false, "", 0)]
  {
  }

  /** At every point of every run the arrays that would be committed for a project are exactly the contributions of its
      submissions and confirmations, in order. */
  lemma {:induction false} ArraysAreTheHistory(events: seq<Event>, project: int)
    ensures Triples(ArraysOf(RowsOf(Run(events).rows, project))) == Contributions(events, project)
  {
    if events != [] {
      var init, e := events[..|events| - 1], events[|events| - 1];
      var rows := Run(init).rows;
      ArraysAreTheHistory(init, project);
      StepAddsRow(Run(init), e);
      if Stores(e) {
        RowsSnoc(rows, NewRow(e), project);
        RowIsContribution(e);
        if e.project == project {
          TriplesSnoc(RowsOf(rows, project), NewRow(e));
        } else {
          assert RowsOf(rows, project) + [] == RowsOf(rows, project);
          assert Contributions(init, project) + [] == Contributions(init, project);
        }
      } else {
        assert Contribution(e, project) == [];
        assert Contributions(init, project) + [] == Contributions(init, project);
      }
    }
  }

  lemma ArraysSnoc(rows: seq<VoteRow>, row: VoteRow)
    ensures KeyedBallots(ArraysOf(rows + [row]))
            == KeyedBallots(ArraysOf(rows)) + (if BallotOf(row).key != "" then [BallotOf(row)] else [])
  {
    var p, p' := ArraysOf(rows), ArraysOf(rows + [row]);
    var n := |rows|;
    assert p'.votes[..n] == p.votes && p'.keys[..n] == p.keys && p'.users[..n] == p.users;
  }

  function KeyedOf(rows: seq<VoteRow>, project: int): seq<Ballot> {
    KeyedBallots(ArraysOf(RowsOf(rows, project)))
  }

  lemma KeyedSnoc(rows: seq<VoteRow>, row: VoteRow, project: int)
    ensures KeyedOf(rows + [row], project)
            == KeyedOf(rows, project)
               + (if row.project == project && BallotOf(row).key != "" then [BallotOf(row)] else [])
  {
    RowsSnoc(rows, row, project);
    var found := RowsOf(rows, project);
    if row.project == project {
      ArraysSnoc(found, row);
    } else {
      assert found + [] == found;
      assert KeyedOf(rows, project) + [] == KeyedOf(rows, project);
    }
  }

  /** At every point of every run the keyed entries of the arrays that would be committed for a project are exactly
      the votes submitted for it with a key, in order; confirmations and milestone votes add only blanks. */
  lemma {:induction false} KeyedEntriesAreTheSubmissions(events: seq<Event>, project: int)
    ensures KeyedOf(Run(events).rows, project) == KeyedVotes(events, project)
  {
    if events != [] {
      var init, e := events[..|events| - 1], events[|events| - 1];
      KeyedEntriesAreTheSubmissions(init, project);
      StepAddsRow(Run(init), e);
      if Stores(e) { KeyedSnoc(Run(init).rows, NewRow(e), project); }
    }
  }

  /** What a commit sends: the contributions of all the project's submissions and confirmations so far, in order, of
      which the ones with a key are exactly the votes submitted with one. */
  lemma CommittedKeysAreTheSubmissions(events: seq<Event>, e: Event)
    requires |Run(events + [e]).commits| > |Run(events).commits|
    ensures var commits := Run(events + [e]).commits;
            var (project, arrays) := commits[|commits| - 1];
            && project == e.project
            && |arrays.votes| == |arrays.keys| == |arrays.users|
            && Triples(arrays) == Contributions(events + [e], e.project)
            && KeyedBallots(arrays) == KeyedVotes(events + [e], e.project)
  {
    RunSnoc(events, e);
    ArraysAreTheHistory(events + [e], e.project);
    KeyedEntriesAreTheSubmissions(events + [e], e.project);
  }

  /** A confirmation keeps the voter its last event names, and a milestone vote's choice with it; the choice of a
      moderation vote stays sealed. */
  lemma ConfirmationStores(events: seq<Event>, e: Event, user: int, vote: bool)
    requires e.Confirmed? && O.LastVote(e.kind, e.events) == Some((user, vote))
    ensures Run(events + [e]).rows
            == Run(events).rows + [VoteRow(e.project, user, !e.kind.MilestoneKind?, vote, "", "")]
    ensures e.kind.ModerationKind? ==> !vote
  {
    RunSnoc(events, e);
  }

  /** Who voted what under which hash, for the rows that carry one. */
  function Seals(rows: seq<VoteRow>): seq<(int, bool, string)> {
    if rows == [] then []
    else
      var row := rows[|rows| - 1];
      Seals(rows[..|rows| - 1]) + (if row.seal != "" then [(row.user, row.vote, row.seal)] else [])
  }

  function SealedVotes(events: seq<Event>, project: int): seq<(int, bool, string)> {
    if events == [] then []
    else
      var e := events[|events| - 1];
      SealedVotes(events[..|events| - 1], project)
      + (if IsSubmission(e, project) && e.seal != "" then [(e.user, e.vote, e.seal)] else [])
  }

  /** In every run the hashes kept for a project are exactly those of the votes submitted for it, each with its voter
      and vote, in order. */
  lemma {:induction false} SealsAreTheSubmissions(events: seq<Event>, project: int)
    ensures Seals(RowsOf(Run(events).rows, project)) == SealedVotes(events, project)
  {
    if events != [] {
      var init, e := events[..|events| - 1], events[|events| - 1];
      var found := RowsOf(Run(init).rows, project);
      SealsAreTheSubmissions(init, project);
      StepAddsRow(Run(init), e);
      if Stores(e) {
        RowsSnoc(Run(init).rows, NewRow(e), project);
        assert (found + [NewRow(e)])[..|found|] == found && found + [] == found;
      }
    }
  }

  /** What the rows of a project say about a history of submissions and confirmations. */
  predicate ShowsHistory(rows: seq<VoteRow>, events: seq<Event>, project: int) {
    && ModerationCount(rows, project) == Submissions(events, project) + Confirmations(events, project)
    && Triples(ArraysOf(RowsOf(rows, project))) == Contributions(events, project)
    && KeyedOf(rows, project) == KeyedVotes(events, project)
    && Seals(RowsOf(rows, project)) == SealedVotes(events, project)
  }

  lemma RunShowsHistory(events: seq<Event>, project: int)
    ensures ShowsHistory(Run(events).rows, events, project)
  {
    CountIsBoth(events, project);
    ArraysAreTheHistory(events, project);
    KeyedEntriesAreTheSubmissions(events, project);
    SealsAreTheSubmissions(events, project);
  }

  // ---- The vote functions as written ----

  class VoteBook {
    var rows: seq<VoteRow>
    var commits: seq<(int, Arrays)>

    ghost function Snapshot(): State
      reads this
    {
      State(rows, commits)
    }

    constructor ()
      ensures Snapshot() == EMPTY_STATE
    {
      rows, commits := [], [];
    }

    method SubmitVote(e: Event)
      requires e.Submitted?
      modifies this
      ensures Snapshot() == OnSubmit(old(Snapshot()), e)
    {
      if e.voteType == 1 {
        rows := rows + [VoteRow(e.project, e.user, true, e.vote, e.key, e.seal)];
      }
    }

    /** The rows of one project, and how many of them are moderation votes. */
    method Search(project: int) returns (found: seq<VoteRow>, moderation: nat)
      ensures found == RowsOf(rows, project) && moderation == ModerationCount(rows, project)
    {
      found, moderation := [], 0;
      var i := 0;
      while i < |rows|
        invariant i <= |rows|
        invariant found == RowsOf(rows[..i], project) && moderation == ModerationCount(rows[..i], project)
      {
        assert rows[..i + 1][..i] == rows[..i];
        if rows[i].project == project {
          found := found + [rows[i]];
          if rows[i].moderation { moderation := moderation + 1; }
        }
        i := i + 1;
      }
      assert rows[..|rows|] == rows;
    }

    /** Fill the three arrays index by index; entries of milestone votes keep their zero values. */
    method FillArrays(found: seq<VoteRow>) returns (payload: Arrays)
      ensures payload == ArraysOf(found)
      ensures forall i :: 0 <= i < |found| ==>
                payload.users[i] == if found[i].moderation then found[i].user else 0
    {
      var n := |found|;
      var finalVotes := new bool[n](_ => false);
      var decryptionKeys := new string[n](_ => "");
      var userIds := new int[n](_ => 0);
      var i := 0;
      while i < n
        invariant i <= n
        invariant forall k :: 0 <= k < i ==>
                    Ballot(finalVotes[k], decryptionKeys[k], userIds[k]) == BallotOf(found[k])
        invariant forall k :: i <= k < n ==> !finalVotes[k] && decryptionKeys[k] == "" && userIds[k] == 0
      {
        if found[i].moderation {
          finalVotes[i] := found[i].vote;
          decryptionKeys[i] := found[i].key;
          userIds[i] := found[i].user;
        }
        i := i + 1;
      }
      payload := Arrays(finalVotes[..], decryptionKeys[..], userIds[..]);
      assert payload.votes == ArraysOf(found).votes;
      assert payload.keys == ArraysOf(found).keys;
      assert payload.users == ArraysOf(found).users;
    }

    method CommitModerationVotes(project: int, encryptedVotes: nat)
      modifies this
      ensures Snapshot() == if encryptedVotes >= THRESHOLD
                            then old(Snapshot()).(commits :=
                                   old(commits) + [(project, ArraysOf(RowsOf(old(rows), project)))])
                            else old(Snapshot())
    {
      if encryptedVotes >= THRESHOLD {
        var found, _ := Search(project);
        var payload := FillArrays(found);
        commits := commits + [(project, payload)];
      }
    }

    method VoteCallback(e: Event)
      requires e.Confirmed?
      modifies this
      ensures Snapshot() == OnConfirm(old(Snapshot()), e)
    {
      var last := S.ReadVotes(e.kind, e.events);
      if last.None? { return; }
      var (beneficiary, voteBool) := last.value;
      var moderation := !e.kind.MilestoneKind?;
      rows := rows + [VoteRow(e.project, beneficiary, moderation, voteBool, "", "")];
      if e.kind.ModerationKind? {
        var _, encryptedVotes := Search(e.project);
        if encryptedVotes >= THRESHOLD { CommitModerationVotes(e.project, encryptedVotes); }
      }
    }

    method Handle(e: Event)
      modifies this
      ensures Snapshot() == Step(old(Snapshot()), e)
    {
      if e.Submitted? { SubmitVote(e); } else { VoteCallback(e); }
    }

    /** Any sequence of submissions and confirmations after the history `before`: the object ends where the whole
        history does, and for every project its rows count submissions and confirmations together its arrays
        are their contributions, and its keyed entries are exactly the submitted votes with a key, in order. */
    method HandleAll(ghost before: seq<Event>, events: seq<Event>)
      requires Snapshot() == Run(before)
      modifies this
      ensures Snapshot() == Run(before + events)
      ensures forall project :: ShowsHistory(rows, before + events, project)
    {
      var i := 0;
      assert before + events[..0] == before;
      while i < |events|
        invariant i <= |events| && Snapshot() == Run(before + events[..i])
      {
        Handle(events[i]);
        assert (before + events[..i + 1])[..|before| + i] == before + events[..i];
        i := i + 1;
      }
      assert events[..|events|] == events;
      forall project ensures ShowsHistory(rows, before + events, project) {
        RunShowsHistory(before + events, project);
      }
    }
  }
}
