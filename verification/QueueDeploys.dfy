/** Where the address of a deployed project ends up: in its transaction's row and in the project, unless a restart comes
    in between. */
module QueueDeploys {
  import opened QueueSpec
  import opened QueueSafety
  import opened QueueTheorems
  import opened QueueLocal
  import opened QueueHistory

  /** The handler has stored the address in the row, and goes on to the project. */
  predicate PastAddress(place: Place) {
    PastProject(place)
    || (place.Delivered? && place.point.Writing? && place.point.write.ToProject?)
    || (place.Delivered? && place.point.Wrote? && place.point.write.ToAddress?)
  }

  predicate PastProject(place: Place) {
    place == Delivered(Posting) || (place.Delivered? && place.point.Wrote? && place.point.write.ToProject?)
  }

  /** Without restarts: the address of a complete deployment is stored as soon as its handler is past the update. */
  predicate Stored(v: View, inProject: bool) {
    v.restarts == 0 && v.row.Some? && v.row.value.deploy && v.row.value.status.Complete? ==>
      && (v.copy.Some? ==> Lagging(v.copy.value.place) || v.copy.value.place == Delivered(Posting))
      && (v.copy.None? || PastAddress(v.copy.value.place) ==> v.row.value.address.Some?)
      && (v.copy.None? || PastProject(v.copy.value.place) ==> inProject)
  }

  ghost predicate InProject(s: State, u: nat) {
    u in s.rows && s.rows[u].project in s.projects
  }

  lemma LocalStepKeepsStored(c: Config, u: nat, v: View, lm: LocalMove, before: bool, after: bool)
    requires ViewFits(v) && Stored(v, before) && Allowed(c, v, lm) && ViewFits(LocalStep(c, u, v, lm))
    requires before || (lm.Commit? && lm.write.ToProject?) ==> after
    ensures Stored(LocalStep(c, u, v, lm), after)
  {
  }

  lemma OthersKeepProject(c: Config, s: State, move: Move, u: nat)
    requires !move.Applied? && InProject(s, u)
    ensures InProject(Step(c, s, move), u)
  {
  }

  lemma UpdateKeepsProject(c: Config, s: State, move: Move, u: nat)
    requires Inv(s) && move.Applied?
    ensures InProject(s, u) ==> InProject(Step(c, s, move), u)
  {
  }

  lemma UpdateStoresProject(c: Config, s: State, id: CopyId, u: nat)
    requires Inv(s) && Holds(s, id, u) && s.copies[id].place.Delivered? && s.copies[id].place.point.Writing?
    ensures s.copies[id].place.point.write.ToProject? ==> InProject(Step(c, s, Applied(id)), u)
  {
    assert Agrees(s.history.restarts, s.copies[id], s.rows[u]);
  }

  lemma CommitIsUpdate(c: Config, s: State, move: Move, u: nat)
    requires LocalMoveOf(c, s, move, u).Commit?
    ensures move.Applied? && Holds(s, move.id, u)
    ensures s.copies[move.id].place == Delivered(Writing(LocalMoveOf(c, s, move, u).write))
  {
  }

  /** Projects keep their addresses, rows their projects, and the project update stores one. */
  lemma ProjectStays(c: Config, s: State, move: Move, u: nat)
    requires Inv(s)
    ensures var lm := LocalMoveOf(c, s, move, u);
            InProject(s, u) || (lm.Commit? && lm.write.ToProject?) ==> InProject(Step(c, s, move), u)
  {
    if InProject(s, u) {
      if move.Applied? { UpdateKeepsProject(c, s, move, u); } else { OthersKeepProject(c, s, move, u); }
    } else if LocalMoveOf(c, s, move, u).Commit? {
      CommitIsUpdate(c, s, move, u);
      UpdateStoresProject(c, s, move.id, u);
    }
  }

  lemma {:induction false} RunKeepsStored(c: Config, s: State, moves: seq<Move>, u: nat)
    requires Inv(s) && Stored(ViewOf(s, u), InProject(s, u))
    ensures Stored(ViewOf(Run(c, s, moves), u), InProject(Run(c, s, moves), u))
    decreases |moves|
  {
    if moves != [] {
      var s' := Step(c, s, moves[0]);
      StepKeepsInv(c, s, moves[0]);
      InvFits(s, u);
      InvFits(s', u);
      Simulates(c, s, moves[0], u);
      ProjectStays(c, s, moves[0], u);
      LocalStepKeepsStored(c, u, ViewOf(s, u), LocalMoveOf(c, s, moves[0], u), InProject(s, u), InProject(s', u));
      RunKeepsStored(c, s', moves[1..], u);
    }
  }

  /** Without restarts a complete deployment whose handler is through, reported or not, has its address in its row, and
      its project has one. */
  lemma DeploymentsAreStored(c: Config, moves: seq<Move>, u: nat)
    requires CrashFree(moves)
    ensures var s := Run(c, INITIAL_STATE, moves);
            u in s.rows && s.rows[u].deploy && s.rows[u].status.Complete?
            && (forall id :: Holds(s, id, u) ==> !Lagging(s.copies[id].place)) ==>
              s.rows[u].address.Some? && s.rows[u].project in s.projects
  {
    var s := Run(c, INITIAL_STATE, moves);
    RunKeepsStored(c, INITIAL_STATE, moves, u);
    ReachedInv(c, moves);
    InvFits(s, u);
    if id :| Holds(s, id, u) { CopyIs(s, id, u); }
  }

  // ---- Restarts ----

  predicate Abandoned(v: View) {
    v.row.Some? && v.row.value.status.Complete? && v.copy.None?
  }

  lemma {:induction false} AbandonedStays(c: Config, s: State, moves: seq<Move>, u: nat)
    requires Inv(s) && Abandoned(ViewOf(s, u))
    ensures Abandoned(ViewOf(Run(c, s, moves), u)) && ViewOf(Run(c, s, moves), u).row == ViewOf(s, u).row
    decreases |moves|
  {
    if moves != [] {
      StepKeepsInv(c, s, moves[0]);
      Simulates(c, s, moves[0], u);
      AbandonedStays(c, Step(c, s, moves[0]), moves[1..], u);
    }
  }

  /** The row of a transaction that a restart finds complete never changes again: a deployment that was still without
      its address stays without. */
  lemma RestartFreezesComplete(c: Config, before: seq<Move>, after: seq<Move>, u: nat)
    ensures var s := Run(c, INITIAL_STATE, before);
            var s' := Run(c, Step(c, s, Restart), after);
            u in s.rows && s.rows[u].status.Complete? ==>
              u in s'.rows && s'.rows[u] == s.rows[u] && forall id :: !Holds(s', id, u)
  {
    var s := Run(c, INITIAL_STATE, before);
    var s1 := Step(c, s, Restart);
    ReachedInv(c, before);
    if u in s.rows && s.rows[u].status.Complete? {
      StepKeepsInv(c, s, Restart);
      MirrorRestart(c, s, u);
      AbandonedStays(c, s1, after, u);
      RunKeepsInv(c, s1, after);
      if id :| Holds(Run(c, s1, after), id, u) { CopyIs(Run(c, s1, after), id, u); }
    }
  }
}
