/** One tick evaluates every player in turn. Players own disjoint rows, so neither their
    order nor one player's failure is visible to the others. */
module Ticks {
  import opened BattlepassTables
  import opened Evaluation
  import opened EvaluationLaws

  /** One player's evaluation and how many of its writes went through. */
  datatype PlayerRun = PlayerRun(job: Job, stop: Stop)

  ghost predicate CanRun(db: Db, run: PlayerRun) {
    DistinctKeys(run.job.tiers) && CanStop(db, run.job, run.stop)
  }

  function Outcome(db: Db, run: PlayerRun): Db
    requires run.stop.writes <= |Plan(db, run.stop.order, run.job)|
  {
    Apply(db, Plan(db, run.stop.order, run.job)[..run.stop.writes])
  }

  ghost predicate DistinctPlayers(runs: seq<PlayerRun>) {
    forall i, j :: 0 <= i < j < |runs| ==>
      runs[i].job.server != runs[j].job.server || runs[i].job.account != runs[j].job.account
  }

  ghost predicate CanTick(db: Db, runs: seq<PlayerRun>)
    decreases |runs|, 0
  {
    runs == [] || (CanTick(db, runs[..|runs| - 1]) && CanRun(Tick(db, runs[..|runs| - 1]), runs[|runs| - 1]))
  }

  ghost function Tick(db: Db, runs: seq<PlayerRun>): Db
    requires CanTick(db, runs)
    decreases |runs|, 1
  {
    if runs == [] then db else Outcome(Tick(db, runs[..|runs| - 1]), runs[|runs| - 1])
  }

  // ----- An evaluation reads and writes its own rows only -----

  ghost predicate AgreeOn(job: Job, x: Db, y: Db) {
    forall k :: Owns(job, k) ==> At(x, k) == At(y, k)
  }

  lemma SameRowsSamePlan(x: Db, y: Db, order: seq<string>, job: Job)
    requires AgreeOn(job, x, y)
    ensures Plan(x, order, job) == Plan(y, order, job)
    ensures ListsEarned(order, x, job) <==> ListsEarned(order, y, job)
  {
    forall t ensures t in ClaimedTiers(x, job.server, job.account) <==> t in ClaimedTiers(y, job.server, job.account)
             ensures t in SeenTiers(x, job.server, job.account) <==> t in SeenTiers(y, job.server, job.account) {
      ClaimedTierKnown(x, job, t);
      ClaimedTierKnown(y, job, t);
      assert At(x, KeyOf(job, t)) == At(y, KeyOf(job, t));
    }
    assert ClaimedTiers(x, job.server, job.account) == ClaimedTiers(y, job.server, job.account);
    assert SeenTiers(x, job.server, job.account) == SeenTiers(y, job.server, job.account);
    assert forall t :: At(x, KeyOf(job, t)) == At(y, KeyOf(job, t));
  }

  lemma {:induction false} SameRowsSameWrites(x: Db, y: Db, job: Job, writes: seq<Write>)
    requires AgreeOn(job, x, y)
    ensures AgreeOn(job, Apply(x, writes), Apply(y, writes))
  {
    if writes != [] {
      var front, w := writes[..|writes| - 1], writes[|writes| - 1];
      SameRowsSameWrites(x, y, job, front);
      var x1, y1 := Apply(x, front), Apply(y, front);
      PutChangesOneCell(x1, w.k, CellAfter(At(x1, w.k), w));
      PutChangesOneCell(y1, w.k, CellAfter(At(y1, w.k), w));
    }
  }

  /** The rows of other accounts, and of the same account on other servers, are untouched. */
  lemma OtherRowsUntouched(db: Db, run: PlayerRun, k: Key)
    requires CanRun(db, run) && !Owns(run.job, k)
    ensures At(Outcome(db, run), k) == At(db, k)
  {
    PrefixBetween(db, run.stop.order, run.job, run.stop.writes);
    assert Between(run.job, k, At(db, k), At(Outcome(db, run), k));
  }

  lemma OutcomeKeepsCatalogue(db: Db, run: PlayerRun)
    requires CanRun(db, run)
    ensures Outcome(db, run).tiers == db.tiers
  {
    PrefixBetween(db, run.stop.order, run.job, run.stop.writes);
  }

  // ----- A tick, row by row -----

  ghost predicate Unvisited(runs: seq<PlayerRun>, k: Key) {
    forall i :: 0 <= i < |runs| ==> !Owns(runs[i].job, k)
  }

  ghost predicate CanRunAll(db: Db, runs: seq<PlayerRun>) {
    forall i :: 0 <= i < |runs| ==> CanRun(db, runs[i])
  }

  /** A run that is possible at the start stays possible, and does the same to its rows,
      after other players' runs. */
  lemma RunAfterOthers(db: Db, before: Db, run: PlayerRun)
    requires CanRun(db, run) && AgreeOn(run.job, db, before)
    ensures CanRun(before, run)
    ensures AgreeOn(run.job, Outcome(db, run), Outcome(before, run))
  {
    SameRowsSamePlan(db, before, run.stop.order, run.job);
    SameRowsSameWrites(db, before, run.job, Plan(db, run.stop.order, run.job)[..run.stop.writes]);
  }

  /** After a tick each key shows its own player's evaluation of the starting tables, and
      nothing else. */
  lemma {:induction false} TickRowByRow(db: Db, runs: seq<PlayerRun>, k: Key)
    requires DistinctPlayers(runs) && CanRunAll(db, runs)
    ensures CanTick(db, runs) && Tick(db, runs).tiers == db.tiers
    ensures Unvisited(runs, k) ==> At(Tick(db, runs), k) == At(db, k)
    ensures forall i :: 0 <= i < |runs| && CanRun(db, runs[i]) && Owns(runs[i].job, k) ==>
              At(Tick(db, runs), k) == At(Outcome(db, runs[i]), k)
    decreases |runs|
  {
    hide Outcome, Plan, At, ListsEarned;  // only their agreement on rows matters here
    if runs != [] {
      var front, run := runs[..|runs| - 1], runs[|runs| - 1];
      TickRowByRow(db, front, k);
      var before := Tick(db, front);
      assert AgreeOn(run.job, db, before) by {
        forall j | Owns(run.job, j) ensures At(db, j) == At(before, j) {
          TickRowByRow(db, front, j);
          assert Unvisited(front, j);
        }
      }
      RunAfterOthers(db, before, run);
      OutcomeKeepsCatalogue(before, run);
      if !Owns(run.job, k) {
        OtherRowsUntouched(before, run, k);
        assert Unvisited(runs, k) ==> Unvisited(front, k);
        forall i | 0 <= i < |runs| && CanRun(db, runs[i]) && Owns(runs[i].job, k)
          ensures At(Tick(db, runs), k) == At(Outcome(db, runs[i]), k)
        {
          assert runs[i] == front[i];
        }
      }
    }
  }

  lemma SameRunsSameRows(db: Db, runs: seq<PlayerRun>, others: seq<PlayerRun>, k: Key)
    requires forall run :: run in runs <==> run in others
    requires DistinctPlayers(runs) && DistinctPlayers(others) && CanRunAll(db, runs) && CanRunAll(db, others)
    requires CanTick(db, runs) && CanTick(db, others)
    ensures At(Tick(db, runs), k) == At(Tick(db, others), k)
  {
    hide Outcome, Plan, At, ListsEarned, CanTick, Tick, CanRun, Owns;
    TickRowByRow(db, runs, k);
    TickRowByRow(db, others, k);
    if i: nat :| i < |runs| && Owns(runs[i].job, k) {
      assert runs[i] in others;
      var j :| 0 <= j < |others| && others[j] == runs[i];
    } else {
      assert forall j :: 0 <= j < |others| ==> others[j] in runs;
    }
  }

  /** Any order of players, finishing or failing as they may, gives the same tables. */
  lemma PlayerOrderIsIrrelevant(db: Db, runs: seq<PlayerRun>, permuted: seq<PlayerRun>)
    requires multiset(runs) == multiset(permuted)
    requires DistinctPlayers(runs) && DistinctPlayers(permuted)
    requires CanRunAll(db, runs)
    ensures CanTick(db, runs) && CanTick(db, permuted)
    ensures Tick(db, runs) == Tick(db, permuted)
  {
    hide Outcome, Plan, At, ListsEarned, CanTick, Tick, CanRun, DistinctPlayers;
    forall run ensures run in runs <==> run in permuted {
      assert run in multiset(runs) <==> run in multiset(permuted);
    }
    forall i | 0 <= i < |permuted| ensures CanRun(db, permuted[i]) { assert permuted[i] in runs; }
    TickRowByRow(db, runs, ANY_KEY);
    TickRowByRow(db, permuted, ANY_KEY);
    forall k ensures At(Tick(db, runs), k) == At(Tick(db, permuted), k) { SameRunsSameRows(db, runs, permuted, k); }
    SameCellsSameDb(Tick(db, runs), Tick(db, permuted));
  }

  const ANY_KEY := Key(0, "", 0)

  /** The runs of a tick of distinct players are all runs of the starting tables. */
  lemma {:induction false} TickRunsStartTogether(db: Db, runs: seq<PlayerRun>)
    requires DistinctPlayers(runs) && CanTick(db, runs)
    ensures CanRunAll(db, runs)
    decreases |runs|
  {
    hide Outcome, Plan, At, ListsEarned;
    if runs != [] {
      var front, run := runs[..|runs| - 1], runs[|runs| - 1];
      TickRunsStartTogether(db, front);
      var before := Tick(db, front);
      forall j | Owns(run.job, j) ensures At(before, j) == At(db, j) {
        TickRowByRow(db, front, j);
        assert Unvisited(front, j);
      }
      RunAfterOthers(before, db, run);
      forall i | 0 <= i < |runs| ensures CanRun(db, runs[i]) {
        if i < |front| { assert runs[i] == front[i]; }
      }
    }
  }

  /** Each player's rows are as they were when its turn comes. */
  lemma RowsAsAtStart(db: Db, runs: seq<PlayerRun>, j: nat)
    requires j < |runs| && DistinctPlayers(runs) && CanRunAll(db, runs)
    ensures CanTick(db, runs[..j])
    ensures AgreeOn(runs[j].job, db, Tick(db, runs[..j]))
  {
    hide Outcome, Plan, At, ListsEarned, CanRun;
    var before := runs[..j];
    TickRowByRow(db, before, ANY_KEY);
    forall k | Owns(runs[j].job, k) ensures At(db, k) == At(Tick(db, before), k) {
      assert Unvisited(before, k);
      TickRowByRow(db, before, k);
    }
  }

  // ----- Any order of players and of tiers -----

  /** The evaluation makes all the writes it plans on the starting tables. */
  ghost predicate Complete(db: Db, run: PlayerRun) {
    run.stop.writes == |Plan(db, run.stop.order, run.job)|
  }

  ghost predicate AllComplete(db: Db, runs: seq<PlayerRun>) {
    forall i :: 0 <= i < |runs| ==> Complete(db, runs[i])
  }

  /** The same player and signals, with the tiers in any order. */
  predicate Reordered(a: Job, b: Job) {
    b == a.(tiers := b.tiers) && multiset(a.tiers) == multiset(b.tiers)
  }

  ghost predicate PlayersAmong(runs: seq<PlayerRun>, others: seq<PlayerRun>) {
    forall i :: 0 <= i < |runs| ==> exists j :: 0 <= j < |others| && Reordered(runs[i].job, others[j].job)
  }

  lemma CompleteOutcome(db: Db, run: PlayerRun, k: Key)
    requires CanRun(db, run) && Complete(db, run)
    ensures At(Outcome(db, run), k) == After(run.job, k, At(db, k))
  {
    hide At, After;
    var ws := Plan(db, run.stop.order, run.job);
    assert ws[..|ws|] == ws;
    PlanReaches(db, run.stop.order, run.job, k);
  }

  lemma VisitedAlike(db: Db, runs: seq<PlayerRun>, others: seq<PlayerRun>, k: Key, i: nat)
    requires DistinctPlayers(runs) && DistinctPlayers(others) && PlayersAmong(runs, others)
    requires CanRunAll(db, runs) && CanRunAll(db, others) && AllComplete(db, runs) && AllComplete(db, others)
    requires i < |runs| && Owns(runs[i].job, k)
    requires CanTick(db, runs) && CanTick(db, others)
    ensures At(Tick(db, runs), k) == At(Tick(db, others), k)
  {
    hide Outcome, Plan, At, After, ListsEarned, CanTick, Tick;
    var j :| 0 <= j < |others| && Reordered(runs[i].job, others[j].job);
    TickRowByRow(db, runs, k);
    TickRowByRow(db, others, k);
    CompleteOutcome(db, runs[i], k);
    CompleteOutcome(db, others[j], k);
    SameSight(runs[i].job, others[j].job.tiers, k, At(db, k));
  }

  lemma TicksAgreeOn(db: Db, runs: seq<PlayerRun>, others: seq<PlayerRun>, k: Key)
    requires DistinctPlayers(runs) && DistinctPlayers(others)
    requires CanRunAll(db, runs) && CanRunAll(db, others) && CanTick(db, runs) && CanTick(db, others)
    requires PlayersAmong(runs, others) && PlayersAmong(others, runs)
    requires AllComplete(db, runs) && AllComplete(db, others)
    ensures At(Tick(db, runs), k) == At(Tick(db, others), k)
  {
    hide Outcome, Plan, At, ListsEarned, CanTick, Tick, CanRunAll, AllComplete, PlayersAmong, DistinctPlayers, Owns;
    if i: nat :| i < |runs| && Owns(runs[i].job, k) {
      VisitedAlike(db, runs, others, k, i);
    } else if i: nat :| i < |others| && Owns(others[i].job, k) {
      VisitedAlike(db, others, runs, k, i);
    } else {
      TickRowByRow(db, runs, k);
      TickRowByRow(db, others, k);
    }
  }

  /** Two ticks that complete leave the same tables when they evaluate the same players,
      whatever the order of the players, of each one's tiers, and of the retroactive grants. */
  lemma TickOrderIsIrrelevant(db: Db, runs: seq<PlayerRun>, others: seq<PlayerRun>)
    requires DistinctPlayers(runs) && DistinctPlayers(others)
    requires CanTick(db, runs) && CanTick(db, others)
    requires PlayersAmong(runs, others) && PlayersAmong(others, runs)
    requires AllComplete(db, runs) && AllComplete(db, others)
    ensures Tick(db, runs) == Tick(db, others)
  {
    hide Outcome, Plan, At, ListsEarned, CanTick, Tick, CanRunAll, AllComplete, PlayersAmong, DistinctPlayers;
    TickRunsStartTogether(db, runs);
    TickRunsStartTogether(db, others);
    TickRowByRow(db, runs, ANY_KEY);
    TickRowByRow(db, others, ANY_KEY);
    forall k ensures At(Tick(db, runs), k) == At(Tick(db, others), k) { TicksAgreeOn(db, runs, others, k); }
    SameCellsSameDb(Tick(db, runs), Tick(db, others));
  }

  /** When one player's evaluation stops elsewhere, only that player's rows can differ. */
  lemma FailureStaysWithItsPlayer(db: Db, runs: seq<PlayerRun>, i: nat, stop: Stop, k: Key)
    requires i < |runs| && DistinctPlayers(runs) && CanRunAll(db, runs)
    requires CanRun(db, runs[i].(stop := stop))
    ensures CanTick(db, runs) && CanTick(db, runs[i := runs[i].(stop := stop)])
    ensures !Owns(runs[i].job, k) ==>
              At(Tick(db, runs), k) == At(Tick(db, runs[i := runs[i].(stop := stop)]), k)
  {
    hide Outcome, Plan, At, ListsEarned;
    var changed := runs[i := runs[i].(stop := stop)];
    TickRowByRow(db, runs, k);
    TickRowByRow(db, changed, k);
    if !Owns(runs[i].job, k) {
      if Unvisited(runs, k) {
        assert Unvisited(changed, k);
      } else {
        var j :| 0 <= j < |runs| && Owns(runs[j].job, k);
        assert changed[j] == runs[j] && CanRun(db, runs[j]);
      }
    }
  }
}
