/** Steps of the protocol around one tier and one account, on a database that holds
    nothing else: the building blocks of the concrete runs. */
module Scenarios {
  import opened Options
  import opened BattlepassTables
  import opened Evaluation
  import opened EvaluationLaws
  import opened Ticks
  import opened Delivery
  import opened Protocol
  import Timestamps

  const BLANK := Cell(None, false, None)

  /** One tier in one server's catalogue, and at most its own key's cell. */
  function Sole(k: Key, tier: Tier, c: Cell): Db {
    Put(Db(map[k.server := [tier]], map[], {}, map[]), k, c)
  }

  predicate Names(k: Key, tier: Tier) {
    tier.key == k.tier && k.tier != "" && tier.enabled
  }

  ghost predicate Moves(w: World, step: Step, w1: World) {
    Enabled(w, step) && w1 == Next(w, step)
  }

  lemma SoleCell(k: Key, tier: Tier, c: Cell)
    ensures At(Sole(k, tier, c), k) == c
    ensures forall j :: j != k ==> At(Sole(k, tier, c), j) == BLANK
    ensures Names(k, tier) ==> Catalogued(Sole(k, tier, c), k) == Some(tier)
  {}

  /** A database with that catalogue and no other cell is determined by the one cell. */
  lemma OnlySole(k: Key, tier: Tier, c: Cell, db: Db)
    requires db.tiers == map[k.server := [tier]]
    requires At(db, k) == c && forall j :: j != k ==> At(db, j) == BLANK
    ensures db == Sole(k, tier, c)
  {
    SoleCell(k, tier, c);
    SameCellsSameDb(db, Sole(k, tier, c));
  }

  lemma Stocking(k: Key, tier: Tier)
    ensures Moves(EMPTY, EditCatalogue(k.server, [tier]), World(Sole(k, tier, BLANK), {}))
  {
    OnlySole(k, tier, BLANK, Next(EMPTY, EditCatalogue(k.server, [tier])).db);
  }

  // ----- Evaluations -----

  predicate ForKey(job: Job, k: Key, tier: Tier) {
    job.server == k.server && job.account == k.account && job.tiers == [tier]
  }

  predicate Meets(job: Job, tier: Tier) {
    Satisfied(tier, job.level, job.journey, job.tags)
  }

  ghost function WholeRun(db: Db, job: Job): PlayerRun {
    PlayerRun(job, Stop([], |Plan(db, [], job)|))
  }

  lemma NoOtherTier(job: Job, k: Key, tier: Tier, j: Key)
    requires ForKey(job, k, tier) && Names(k, tier) && j != k
    ensures After(job, j, BLANK) == BLANK
  {
    if Owns(job, j) { assert j.tier != k.tier; }
  }

  lemma Evaluating(k: Key, tier: Tier, c: Cell, job: Job)
    requires ForKey(job, k, tier) && Names(k, tier) && !c.Holds(Earned)
    ensures Moves(World(Sole(k, tier, c), {}), Evaluate(WholeRun(Sole(k, tier, c), job)), World(Sole(k, tier, After(job, k, c)), {}))
  {
    hide Plan, Put, Sole, After;
    var db := Sole(k, tier, c);
    SoleCell(k, tier, c);
    SoleCatalogue(k, tier, c);
    assert ListsEarned([], db, job) by {
      forall t ensures !At(db, KeyOf(job, t)).Holds(Earned) {}
    }
    var ws := Plan(db, [], job);
    assert ws[..|ws|] == ws;
    CatalogueUntouched(db, [], job);
    forall j ensures At(Apply(db, ws), j) == if j == k then After(job, k, c) else BLANK {
      PlanReaches(db, [], job, j);
      if j != k { NoOtherTier(job, k, tier, j); }
    }
    OnlySole(k, tier, After(job, k, c), Apply(db, ws));
  }

  lemma SoleCatalogue(k: Key, tier: Tier, c: Cell)
    ensures Sole(k, tier, c).tiers == map[k.server := [tier]]
  {}

  /** What evaluating the tier does to its cell. */
  lemma EvaluatedSole(k: Key, tier: Tier, c: Cell, job: Job)
    requires ForKey(job, k, tier) && Names(k, tier)
    ensures After(job, k, c) == Evaluated(c, if Meets(job, tier) then Met(tier.intel) else Unmet, job.awardPast, job.autoGrant)
  {
    assert TierNamed([tier], k.tier) == Some(tier);
  }

  // ----- Other steps -----

  predicate ReadyToList(c: Cell) {
    c.RowIs(Pending) && c.row.value.attempts < MAX_ATTEMPTS && c.row.value.nextAttemptAt == ""
  }

  lemma ListingSole(k: Key, tier: Tier, c: Cell, now: nat)
    requires ReadyToList(c)
    ensures Moves(World(Sole(k, tier, c), {}), ListDue(k.server, now), World(Sole(k, tier, c), {k}))
  {
    Timestamps.BlankComesFirst(now);
    SoleCell(k, tier, c);
    var db := Sole(k, tier, c);
    forall j ensures j in DueKeys(db, k.server, now) <==> j == k {
      assert At(db, j) == if j == k then c else BLANK;
    }
    assert DueKeys(db, k.server, now) == {k};
  }

  /** Attempts, manual grants and purges of the key leave every other cell blank. */
  lemma SoleStays(k: Key, tier: Tier, c: Cell, due: set<Key>, step: Step)
    requires Enabled(World(Sole(k, tier, c), due), step)
    requires (step.TryGrant? && step.k == k) || (step.GrantTier? && step.k == k) || step.Purge?
    ensures
      var w1 := Next(World(Sole(k, tier, c), due), step);
      w1.db == Sole(k, tier, At(w1.db, k)) && w1.due == if step.TryGrant? then due - {k} else due
    ensures CellStep(Sole(k, tier, c), step, k, c, At(Next(World(Sole(k, tier, c), due), step).db, k))
  {
    var w := World(Sole(k, tier, c), due);
    var db1 := Next(w, step).db;
    assert db1.tiers == map[k.server := [tier]];
    hide At, Put, Next, Enabled, Sole, Catalogued;
    SoleCell(k, tier, c);
    forall j ensures j != k ==> At(db1, j) == BLANK {
      StepOnCell(w, step, j);
    }
    StepOnCell(w, step, k);
    OnlySole(k, tier, At(db1, k), db1);
  }

  lemma Attempting(k: Key, tier: Tier, c: Cell, io: AttemptIo)
    requires Names(k, tier)
    ensures Moves(World(Sole(k, tier, c), {k}), TryGrant(k, io), World(Sole(k, tier, AttemptCell(c, Some(tier), io)), {}))
  {
    SoleCell(k, tier, c);
    SoleStays(k, tier, c, {k}, TryGrant(k, io));
  }

  lemma GrantingByHand(k: Key, tier: Tier, c: Cell, io: ManualIo)
    ensures Moves(World(Sole(k, tier, c), {}), GrantTier(k, io), World(Sole(k, tier, ManualCell(c, io)), {}))
  {
    SoleStays(k, tier, c, {}, GrantTier(k, io));
  }

  lemma Purging(k: Key, tier: Tier, c: Cell, due: set<Key>, done: nat)
    ensures Moves(World(Sole(k, tier, c), due), Purge(k.server, k.account, done), World(Sole(k, tier, PurgeCell(c, done)), due))
  {
    SoleStays(k, tier, c, due, Purge(k.server, k.account, done));
  }

  // ----- An enqueued tier is reachable -----

  /** Earned by award-past, and enqueued. */
  function Enlisted(tier: Tier): Cell {
    Cell(Some(Claim(Earned, tier.intel, 0, "")), false, Some(GrantRow(Pending, 0, "", "")))
  }

  /** From the empty database: a tier is added, and a player who meets it is evaluated with
      award-past and auto-grant on. */
  lemma Enlisting(k: Key, tier: Tier, job: Job) returns (ws: seq<World>, steps: seq<Step>)
    requires ForKey(job, k, tier) && Names(k, tier) && Meets(job, tier) && job.awardPast && job.autoGrant
    ensures FreshRun(ws, steps) && |steps| == 2 && ws[2] == World(Sole(k, tier, Enlisted(tier)), {})
  {
    hide Next, Enabled, Sole;
    Stocking(k, tier);
    Evaluating(k, tier, BLANK, job);
    EvaluatedSole(k, tier, BLANK, job);
    ws := [EMPTY, World(Sole(k, tier, BLANK), {}), World(Sole(k, tier, Enlisted(tier)), {})];
    steps := [EditCatalogue(k.server, [tier]), Evaluate(WholeRun(Sole(k, tier, BLANK), job))];
  }

  /** A run goes on with a step. */
  lemma Extended(ws: seq<World>, steps: seq<Step>, step: Step, w1: World)
    requires FreshRun(ws, steps) && Moves(ws[|steps|], step, w1)
    ensures FreshRun(ws + [w1], steps + [step])
  {
    hide Next, Enabled;
    forall i | 0 <= i < |steps| + 1
      ensures Enabled((ws + [w1])[i], (steps + [step])[i]) && (ws + [w1])[i + 1] == Next((ws + [w1])[i], (steps + [step])[i])
    {
      if i < |steps| { assert (ws + [w1])[i] == ws[i] && (ws + [w1])[i + 1] == ws[i + 1]; }
    }
  }
}
