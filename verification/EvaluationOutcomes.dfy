/** What evaluations and ticks leave behind, cell by cell, said in terms of the player, the
    game's answers and what failed. */
module EvaluationOutcomes {
  import opened Options
  import opened BattlepassTables
  import opened Evaluation
  import opened EvaluationLaws
  import opened Ticks
  import opened Engine

  predicate Reaches(t: Tier, p: Player, io: EvalIo) {
    match t.signal
    case Level => t.threshold <= p.level
    case JourneyNode => t.signalKey in io.journeyNodes
    case PlayerTag => t.signalKey in io.playerTags
    case OtherSignal => false
  }

  /** The tier's cell after a complete evaluation: a claim is made exactly when an enabled,
      unclaimed tier is reached, earned when the tier was marked or award-past is on; an
      unreached one is marked; and with auto-grant on an earned claim has a row. */
  predicate Shows(c: Cell, c1: Cell, t: Tier, p: Player, io: EvalIo, awardPast: bool, autoGrant: bool) {
    var reached := t.enabled && Reaches(t, p, io);
    c1.claim == (if c.claim.Some? then c.claim
                 else if reached then Some(Claim(if awardPast || c.seen then Earned else Baseline, t.intel, 0, ""))
                 else None)
    && c1.seen == (c.seen || (t.enabled && c.claim == None && !reached))
    && c1.row == RowAfter(c, c1, autoGrant)
  }

  function RowAfter(c: Cell, c1: Cell, autoGrant: bool): Option<GrantRow> {
    if c.row == None && autoGrant && c1.claim.Some? && c1.claim.value.status == Earned
    then Some(GrantRow(Pending, 0, "", "")) else c.row
  }

  /** The signal rules, on the job as planned and without naming them: which claims a
      complete evaluation creates, tier by tier. */
  lemma ClaimsFollowSignals(db: Db, order: seq<string>, job: Job, t: Tier)
    requires DistinctKeys(job.tiers) && ListsEarned(order, db, job)
    requires t in job.tiers && t.enabled && At(db, KeyOf(job, t.key)).claim == None
    ensures
      var c, c1 := At(db, KeyOf(job, t.key)), At(Apply(db, Plan(db, order, job)), KeyOf(job, t.key));
      (t.signal == Level ==> (c1.claim.Some? <==> t.threshold <= job.level))
      && (t.signal == JourneyNode ==> (c1.claim.Some? <==> t.signalKey in job.journey))
      && (t.signal == PlayerTag ==> (c1.claim.Some? <==> t.signalKey in job.tags))
      && (t.signal == OtherSignal ==> c1.claim == None)
      && (c1.claim == None ==> c1.seen)
      && (c1.claim.Some? ==> c1.seen == c.seen && c1.claim == Some(Claim(if job.awardPast || c.seen then Earned else Baseline, t.intel, 0, "")))
  {
    hide Plan, At;
    PlanReaches(db, order, job, KeyOf(job, t.key));
    TierIsNamed(job.tiers, t);
  }

  // ----- Complete evaluations -----

  lemma CompleteShows(db: Db, server: int, tiers: seq<Tier>, p: Player, awardPast: bool, autoGrant: bool, io: EvalIo, run: PlayerRun, t: Tier)
    requires CanRun(db, run) && Complete(db, run) && t in tiers
    requires run.job == JobOf(server, tiers, p, awardPast, autoGrant, io)
    ensures Shows(At(db, Key(server, t.key, p.account)), At(Outcome(db, run), Key(server, t.key, p.account)), t, p, io, awardPast, autoGrant)
  {
    hide At, Outcome, Complete, Plan;
    CompleteOutcome(db, run, Key(server, t.key, p.account));
    DistinctInRun(db, run);
    TierIsNamed(tiers, t);
  }

  lemma DistinctInRun(db: Db, run: PlayerRun)
    requires CanRun(db, run)
    ensures DistinctKeys(run.job.tiers)
  {}

  /** A read that failed although some enabled, unclaimed tier needs it. */
  ghost predicate NeededReadFails(db: Db, server: int, tiers: seq<Tier>, p: Player, io: EvalIo) {
    exists t :: t in tiers && t.enabled && Key(server, t.key, p.account) !in db.claims
                && (io.seenError.Some?
                    || (t.signal == JourneyNode && io.journeyError.Some?)
                    || (t.signal == PlayerTag && io.tagsError.Some?))
  }

  lemma StallsIff(db: Db, server: int, tiers: seq<Tier>, p: Player, awardPast: bool, autoGrant: bool, io: EvalIo)
    ensures
      var job := JobOf(server, tiers, p, awardPast, autoGrant, io);
      Stalls(Unclaimed(tiers, ClaimedTiers(db, server, p.account)), io) <==> NeededReadFails(db, server, tiers, p, io)
  {
    var job := JobOf(server, tiers, p, awardPast, autoGrant, io);
    var unclaimed := Unclaimed(tiers, ClaimedTiers(db, server, p.account));
    forall t ensures t in unclaimed <==> t in tiers && t.enabled && Key(server, t.key, p.account) !in db.claims {
      ClaimedTierKnown(db, job, t.key);
    }
    if unclaimed != [] { assert unclaimed[0] in unclaimed; }
  }

  /** An evaluation in which the claims can be read, no read that matters fails, and every
      planned write is made. */
  ghost predicate Faultless(db: Db, run: PlayerRun, server: int, tiers: seq<Tier>, p: Player, io: EvalIo) {
    io.claimedError == None && !NeededReadFails(db, server, tiers, p, io)
    && |Plan(db, run.stop.order, run.job)| <= io.writes
  }

  /** What EvaluatePlayer returns and leaves, in the player's own terms: with no fault that
      matters each tier's cell shows the player's level, journey nodes and tags. Signals
      nobody needs may fail to load. */
  lemma FaultlessEvaluation(db: Db, server: int, tiers: seq<Tier>, p: Player, awardPast: bool, autoGrant: bool, io: EvalIo, run: PlayerRun, t: Tier)
    requires CanRun(db, run) && run.job == JobOf(server, tiers, p, awardPast, autoGrant, io)
    requires run.stop.writes == Reached(db, run.stop.order, run.job, io)
    requires Faultless(db, run, server, tiers, p, io) && t in tiers
    ensures Complete(db, run)
    ensures Shows(At(db, Key(server, t.key, p.account)), At(Outcome(db, run), Key(server, t.key, p.account)), t, p, io, awardPast, autoGrant)
  {
    hide At, Outcome, Plan, CanRun, Stalls, NeededReadFails;
    StallsIff(db, server, tiers, p, awardPast, autoGrant, io);
    CompleteShows(db, server, tiers, p, awardPast, autoGrant, io, run, t);
  }

  /** A tier that has left the catalogue keeps its claim and marker. */
  lemma UnlistedTierKeepsItsClaim(db: Db, run: PlayerRun, k: Key)
    requires CanRun(db, run) && Complete(db, run)
    requires k.server == run.job.server && k.account == run.job.account && forall t :: t in run.job.tiers ==> t.key != k.tier
    ensures
      var c, c1 := At(db, k), At(Outcome(db, run), k);
      c1.claim == c.claim && c1.seen == c.seen && c1.row == RowAfter(c, c1, run.job.autoGrant)
  {
    hide At, Outcome, Complete, Plan, CanRun;
    CompleteOutcome(db, run, k);
  }

  // ----- Evaluations that cannot read -----

  lemma {:induction false} EnqueuesOnly(db: Db, ws: seq<Write>, k: Key)
    requires forall w :: w in ws ==> w.Enqueue?
    ensures
      At(Apply(db, ws), k) == if Enqueue(k) in ws && At(db, k).row == None then At(db, k).(row := Some(GrantRow(Pending, 0, "", ""))) else At(db, k)
  {
    if ws != [] {
      var front, w := ws[..|ws| - 1], ws[|ws| - 1];
      assert ws == front + [w] && w in ws;
      EnqueuesOnly(db, front, k);
      PutChangesOneCell(Apply(db, front), w.k, CellAfter(At(Apply(db, front), w.k), w));
    }
  }

  /** When the claims cannot be read, nothing changes. When markers or needed signals cannot,
      no claim and no marker changes, and only the rows of earned claims are made up for. */
  lemma StalledEvaluation(db: Db, server: int, tiers: seq<Tier>, p: Player, awardPast: bool, autoGrant: bool, io: EvalIo, run: PlayerRun, k: Key)
    requires CanRun(db, run) && run.job == JobOf(server, tiers, p, awardPast, autoGrant, io)
    requires run.stop.writes == Reached(db, run.stop.order, run.job, io)
    ensures io.claimedError.Some? ==> Outcome(db, run) == db
    ensures io.claimedError == None && NeededReadFails(db, server, tiers, p, io) && |run.stop.order| <= io.writes ==>
              var c, c1 := At(db, k), At(Outcome(db, run), k);
              c1.claim == c.claim && c1.seen == c.seen
              && c1.row == if k.server == server && k.account == p.account then RowAfter(c, c1, autoGrant) else c.row
  {
    StallsIff(db, server, tiers, p, awardPast, autoGrant, io);
    if io.claimedError == None && NeededReadFails(db, server, tiers, p, io) && |run.stop.order| <= io.writes {
      var retro := RetroWrites(run.stop.order, run.job);
      RetroComesFirst(db, run);
      EnqueuesOnly(db, retro, k);
      RetroIsEarned(db, run, k);
    }
  }

  lemma RetroComesFirst(db: Db, run: PlayerRun)
    requires run.stop.writes == |RetroWrites(run.stop.order, run.job)| <= |Plan(db, run.stop.order, run.job)|
    ensures Outcome(db, run) == Apply(db, RetroWrites(run.stop.order, run.job))
  {
    assert Plan(db, run.stop.order, run.job)[..run.stop.writes] == RetroWrites(run.stop.order, run.job);
  }

  lemma RetroIsEarned(db: Db, run: PlayerRun, k: Key)
    requires CanRun(db, run)
    ensures Enqueue(k) in RetroWrites(run.stop.order, run.job) <==> run.job.autoGrant && Owns(run.job, k) && At(db, k).Holds(Earned)
  {
    hide At;
    var order, job := run.stop.order, run.job;
    if Enqueue(k) in RetroWrites(order, job) {
      var i :| 0 <= i < |order| && RetroWrites(order, job)[i] == Enqueue(k);
      assert order[i] in order;
    }
    if job.autoGrant && Owns(job, k) && At(db, k).Holds(Earned) {
      assert KeyOf(job, k.tier) == k && k.tier in order;
      var i :| 0 <= i < |order| && order[i] == k.tier;
      assert RetroWrites(order, job)[i] == Enqueue(k);
    }
  }

  // ----- Ticks -----

  /** The runs of a tick over players, as EvaluateTick returns them. */
  ghost predicate RunsOf(db: Db, runs: seq<PlayerRun>, server: int, tiers: seq<Tier>, awardPast: bool, autoGrant: bool, players: seq<(Player, EvalIo)>) {
    CanTick(db, runs) && AllReached(db, runs, players) && |runs| == |players|
    && forall i :: 0 <= i < |runs| ==> runs[i].job == JobOf(server, tiers, players[i].0, awardPast, autoGrant, players[i].1)
  }

  predicate DistinctAccounts(players: seq<(Player, EvalIo)>) {
    forall i, j :: 0 <= i < j < |players| ==> players[i].0.account != players[j].0.account
  }

  /** Every read succeeds, and so does every planned write. */
  ghost predicate NothingFails(db: Db, runs: seq<PlayerRun>, players: seq<(Player, EvalIo)>) {
    |runs| == |players|
    && forall j :: 0 <= j < |players| ==>
         ReadsSucceed(players[j].1) && |Plan(db, runs[j].stop.order, runs[j].job)| <= players[j].1.writes
  }

  /** A tick that reaches all of its distinct players without a fault evaluates every one:
      each tier's cell of each player shows that player, and no other account changes. */
  lemma FaultlessTick(db: Db, runs: seq<PlayerRun>, server: int, tiers: seq<Tier>, awardPast: bool, autoGrant: bool, players: seq<(Player, EvalIo)>)
    requires DistinctAccounts(players)
    ensures RunsOf(db, runs, server, tiers, awardPast, autoGrant, players) && NothingFails(db, runs, players) ==>
              forall i, t :: 0 <= i < |players| && t in tiers ==>
                var k := Key(server, t.key, players[i].0.account);
                Shows(At(db, k), At(Tick(db, runs), k), t, players[i].0, players[i].1, awardPast, autoGrant)
    ensures RunsOf(db, runs, server, tiers, awardPast, autoGrant, players) && NothingFails(db, runs, players) ==>
              forall k: Key :: (k.server != server || forall i :: 0 <= i < |players| ==> k.account != players[i].0.account) ==>
                At(Tick(db, runs), k) == At(db, k)
  {
    hide Outcome, Plan, At, Tick, CanTick, CanRun, Complete, Shows, ListsEarned, AllReached;
    if RunsOf(db, runs, server, tiers, awardPast, autoGrant, players) && NothingFails(db, runs, players) {
      assert DistinctPlayers(runs);
      TickRunsStartTogether(db, runs);
      FaultlessTickCompletes(db, runs, players);
      forall i, t | 0 <= i < |players| && t in tiers
        ensures
          var k := Key(server, t.key, players[i].0.account);
          Shows(At(db, k), At(Tick(db, runs), k), t, players[i].0, players[i].1, awardPast, autoGrant)
      {
        TickRowByRow(db, runs, Key(server, t.key, players[i].0.account));
        CompleteShows(db, server, tiers, players[i].0, awardPast, autoGrant, players[i].1, runs[i], t);
      }
      forall k: Key | k.server != server || (forall i :: 0 <= i < |players| ==> k.account != players[i].0.account)
        ensures At(Tick(db, runs), k) == At(db, k)
      {
        TickRowByRow(db, runs, k);
        assert Unvisited(runs, k);
      }
    }
  }
}
