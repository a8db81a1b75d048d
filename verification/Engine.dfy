/** The evaluation engine, statement by statement, against Evaluation's plan. */
module Engine {
  import opened Options
  import opened BattlepassTables
  import opened Store
  import opened Evaluation
  import opened EvaluationLaws
  import opened Ticks
  import opened Statements

  datatype Player = Player(account: int, level: int)

  /** Everything one player's evaluation meets outside the tables: the game's answers,
      the reads that fail, and how many writes succeed before one fails. */
  datatype EvalIo = EvalIo(
    journeyNodes: seq<string>, playerTags: seq<string>,
    claimedError: Option<Error>, journeyError: Option<Error>, tagsError: Option<Error>, seenError: Option<Error>,
    writes: nat, writeError: Error)

  function JobOf(server: int, tiers: seq<Tier>, p: Player, awardPast: bool, autoGrant: bool, io: EvalIo): Job {
    Job(server, p.account, tiers, p.level, (set n | n in io.journeyNodes), (set t | t in io.playerTags), awardPast, autoGrant)
  }

  /** Fetching signals or markers for the unclaimed tiers fails. */
  predicate Stalls(unclaimed: seq<Tier>, io: EvalIo) {
    unclaimed != []
    && ((Needs(unclaimed, JourneyNode) && io.journeyError.Some?)
        || (Needs(unclaimed, PlayerTag) && io.tagsError.Some?)
        || io.seenError.Some?)
  }

  function Min(a: nat, b: nat): nat {
    if a < b then a else b
  }

  /** How many of the planned writes get made. */
  function Reached(db: Db, order: seq<string>, job: Job, io: EvalIo): (n: nat)
    ensures n <= |Plan(db, order, job)|
  {
    if io.claimedError.Some? then 0
    else if Stalls(Unclaimed(job.tiers, ClaimedTiers(db, job.server, job.account)), io) then Min(io.writes, |RetroWrites(order, job)|)
    else Min(io.writes, |Plan(db, order, job)|)
  }

  /** The outcome of the next write when left more will succeed. */
  function Fault(left: nat, io: EvalIo): Option<Error> {
    if left == 0 then Some(io.writeError) else None
  }

  // ----- Pure steps -----

  method UnclaimedTiers(tiers: seq<Tier>, claimed: map<string, ClaimStatus>)
    returns (unclaimed: seq<Tier>, needsJourney: bool, needsTags: bool)
    ensures unclaimed == Unclaimed(tiers, claimed.Keys)
    ensures needsJourney == Needs(unclaimed, JourneyNode) && needsTags == Needs(unclaimed, PlayerTag)
  {
    unclaimed, needsJourney, needsTags := [], false, false;
    var i := 0;
    while i < |tiers|
      invariant 0 <= i <= |tiers|
      invariant unclaimed == Unclaimed(tiers[..i], claimed.Keys)
      invariant needsJourney == Needs(unclaimed, JourneyNode) && needsTags == Needs(unclaimed, PlayerTag)
    {
      var t := tiers[i];
      assert tiers[..i + 1][..i] == tiers[..i];
      i := i + 1;
      if t.enabled && t.key !in claimed {
        ghost var before := unclaimed;
        unclaimed := unclaimed + [t];
        NeedsOneMore(before, t, JourneyNode);
        NeedsOneMore(before, t, PlayerTag);
        match t.signal {
          case JourneyNode => needsJourney := true;
          case PlayerTag => needsTags := true;
          case _ =>
        }
      }
    }
    assert tiers[..i] == tiers;
  }

  lemma NeedsOneMore(tiers: seq<Tier>, t: Tier, signal: Signal)
    ensures Needs(tiers + [t], signal) <==> Needs(tiers, signal) || t.signal == signal
  {}

  method FetchSignals(io: EvalIo, needsJourney: bool, needsTags: bool)
    returns (journey: set<string>, tags: set<string>, err: Option<Error>)
    ensures err.Some? <==> (needsJourney && io.journeyError.Some?) || (needsTags && io.tagsError.Some?)
    ensures err.None? ==> journey == if needsJourney then set n | n in io.journeyNodes else {}
    ensures err.None? ==> tags == if needsTags then set t | t in io.playerTags else {}
  {
    journey, tags, err := {}, {}, None;
    if needsJourney {
      if io.journeyError.Some? { err := io.journeyError; return; }
      for i := 0 to |io.journeyNodes|
        invariant journey == set n | n in io.journeyNodes[..i]
      {
        journey := journey + {io.journeyNodes[i]};
      }
      assert io.journeyNodes[..|io.journeyNodes|] == io.journeyNodes;
    }
    if needsTags {
      if io.tagsError.Some? { err := io.tagsError; return; }
      for i := 0 to |io.playerTags|
        invariant tags == set t | t in io.playerTags[..i]
      {
        tags := tags + {io.playerTags[i]};
      }
      assert io.playerTags[..|io.playerTags|] == io.playerTags;
    }
  }

  // ----- Writes -----

  lemma {:induction false} ApplyFromFront(db: Db, ws: seq<Write>)
    requires ws != []
    ensures Apply(db, ws) == Apply(ApplyWrite(db, ws[0]), ws[1..])
  {
    hide ApplyWrite;
    if |ws| == 1 {
      assert ws[..0] == [] && ws[1..] == [];
    } else {
      var front := ws[..|ws| - 1];
      ApplyFromFront(db, front);
      assert front[1..] == ws[1..][..|ws| - 2] && ws[1..][|ws| - 2] == ws[|ws| - 1];
    }
  }

  /** What has been performed is a prefix of the writes, as long as the faults allow. */
  lemma {:induction false} PerformsPrefix(db: Db, ws: seq<Write>, left: nat)
    ensures
      var p, n := Perform(ApplyWrite, db, ws, left), Min(left, |ws|);
      p.state == Apply(db, ws[..n]) && p.left == left - n && (p.ok <==> n == |ws|)
    decreases |ws|
  {
    hide ApplyWrite;
    if ws != [] && left > 0 {
      PerformsPrefix(ApplyWrite(db, ws[0]), ws[1..], left - 1);
      var n := Min(left, |ws|);
      ApplyFromFront(db, ws[..n]);
      assert ws[..n][1..] == ws[1..][..n - 1];
    }
  }

  /** battlepassRetroactiveGrantTiers: the earned tiers, in whatever order the map yields. */
  method RetroactiveTiers(claimed: map<string, ClaimStatus>) returns (earned: seq<string>)
    ensures forall t :: t in earned <==> t in claimed && claimed[t] == Earned
    ensures forall i, j :: 0 <= i < j < |earned| ==> earned[i] != earned[j]
  {
    earned := [];
    var rest := claimed.Keys;
    while rest != {}
      invariant rest <= claimed.Keys
      invariant forall t :: t in earned <==> t in claimed && t !in rest && claimed[t] == Earned
      invariant forall i, j :: 0 <= i < j < |earned| ==> earned[i] != earned[j]
      decreases rest
    {
      var t :| t in rest;
      rest := rest - {t};
      if claimed[t] == Earned {
        earned := earned + [t];
      }
    }
  }

  /** Enqueue a pending row for every already earned tier, when auto-grant is on. */
  method EnqueueRetroactive(store: BattlepassStore, earned: seq<string>, job: Job, io: EvalIo)
    returns (left: nat, err: Option<Error>)
    requires job.server == store.serverID
    modifies store.db
    ensures Progress(store.db.Contents(), left, err.None?) == Perform(ApplyWrite, old(store.db.Contents()), RetroWrites(earned, job), io.writes)
  {
    ghost var was, ws := store.db.Contents(), RetroWrites(earned, job);
    left, err := io.writes, None;
    if !job.autoGrant { return; }
    var i := 0;
    while i < |earned|
      invariant 0 <= i <= |earned| && err.None?
      invariant Perform(ApplyWrite, was, ws, io.writes) == Perform(ApplyWrite, store.db.Contents(), ws[i..], left)
    {
      err := store.RecordPendingGrant(earned[i], job.account, Fault(left, io));
      if err.Some? { return; }
      assert ws[i..][1..] == ws[i + 1..];
      left := left - 1;
      i := i + 1;
    }
  }

  /** battlepassTierAction: record with a status, or mark. */
  function TierAction(satisfied: bool, seen: bool, awardPast: bool): (bool, ClaimStatus, bool) {
    if !satisfied then (false, Baseline, true)
    else if awardPast || seen then (true, Earned, false)
    else (true, Baseline, false)
  }

  /** The one or two writes a tier plans. */
  lemma ShortPlans(db: Db, job: Job, seen: set<string>, t: Tier, left: nat)
    ensures
      var ws := TierWrites(job, seen, t);
      1 <= |ws| <= 2
      && Perform(ApplyWrite, db, ws, left) ==
         if left == 0 then Progress(db, 0, false)
         else if |ws| == 1 then Progress(ApplyWrite(db, ws[0]), left - 1, true)
         else if left == 1 then Progress(ApplyWrite(db, ws[0]), 0, false)
         else Progress(ApplyWrite(ApplyWrite(db, ws[0]), ws[1]), left - 2, true)
  {
    hide ApplyWrite;
    var ws := TierWrites(job, seen, t);
    if |ws| == 1 {
      assert ws == [ws[0]] + [];
      PerformOne(ApplyWrite, db, ws[0], [], left);
    } else {
      assert ws == [ws[0], ws[1]];
      PerformPair(ApplyWrite, db, ws[0], ws[1], left);
    }
  }

  method ApplyTierAction(store: BattlepassStore, t: Tier, job: Job, satisfied: bool, seen: set<string>, left: nat, io: EvalIo)
    returns (remaining: nat, err: Option<Error>)
    requires job.server == store.serverID
    requires satisfied == Satisfied(t, job.level, job.journey, job.tags)
    modifies store.db
    ensures Progress(store.db.Contents(), remaining, err.None?) == Perform(ApplyWrite, old(store.db.Contents()), TierWrites(job, seen, t), left)
  {
    remaining := left;
    ShortPlans(store.db.Contents(), job, seen, t, left);
    var (record, status, mark) := TierAction(satisfied, t.key in seen, job.awardPast);
    if mark {
      err := store.MarkSeenUnsatisfied(t.key, job.account, Fault(left, io));
      if err.None? { remaining := left - 1; }
      return;
    }
    if !record { assert false; return; }
    err := store.RecordClaim(t.key, job.account, t.intel, status, Fault(left, io));
    if err.Some? { return; }
    remaining := left - 1;
    if job.autoGrant && status == Earned {
      err := store.RecordPendingGrant(t.key, job.account, Fault(remaining, io));
      if err.Some? { return; }
      remaining := remaining - 1;
    }
  }

  /** Signal sets loaded where needed decide the same writes as the full ones. */
  lemma LoadedSignalsSuffice(job: Job, loaded: Job, seen: set<string>, tiers: seq<Tier>)
    requires loaded == job.(journey := loaded.journey, tags := loaded.tags)
    requires (Needs(tiers, JourneyNode) ==> loaded.journey == job.journey) && (Needs(tiers, PlayerTag) ==> loaded.tags == job.tags)
    ensures AllTierWrites(loaded, seen, tiers) == AllTierWrites(job, seen, tiers)
  {
    SameTierWrites(job, loaded, seen, tiers);
  }

  /** The tier writes, from already fetched signals and markers. */
  method RecordTiers(store: BattlepassStore, tiers: seq<Tier>, job: Job, seen: set<string>, left: nat, io: EvalIo)
    returns (remaining: nat, err: Option<Error>)
    requires job.server == store.serverID
    modifies store.db
    ensures Progress(store.db.Contents(), remaining, err.None?) == Perform(ApplyWrite, old(store.db.Contents()), AllTierWrites(job, seen, tiers), left)
  {
    ghost var was, all := store.db.Contents(), AllTierWrites(job, seen, tiers);
    remaining, err := left, None;
    var i := 0;
    while i < |tiers|
      invariant 0 <= i <= |tiers| && err.None?
      invariant Perform(ApplyWrite, was, all, left) == Perform(ApplyWrite, store.db.Contents(), AllTierWrites(job, seen, tiers[i..]), remaining)
    {
      var satisfied := Satisfied(tiers[i], job.level, job.journey, job.tags);
      assert tiers[i..][0] == tiers[i] && tiers[i..][1..] == tiers[i + 1..];
      PerformInParts(ApplyWrite, store.db.Contents(), TierWrites(job, seen, tiers[i]), AllTierWrites(job, seen, tiers[i + 1..]), remaining);
      remaining, err := ApplyTierAction(store, tiers[i], job, satisfied, seen, remaining, io);
      if err.Some? { return; }
      i := i + 1;
    }
  }

  /** recordSatisfiedBattlepassTiers: fetch what the unclaimed tiers need, then write. */
  method RecordSatisfied(store: BattlepassStore, unclaimed: seq<Tier>, job: Job, needsJourney: bool, needsTags: bool, left: nat, io: EvalIo)
    returns (remaining: nat, err: Option<Error>)
    requires job.server == store.serverID && unclaimed != []
    requires job.journey == (set n | n in io.journeyNodes) && job.tags == (set t | t in io.playerTags)
    requires needsJourney == Needs(unclaimed, JourneyNode) && needsTags == Needs(unclaimed, PlayerTag)
    modifies store.db
    ensures
      var was := old(store.db.Contents());
      Progress(store.db.Contents(), remaining, err.None?) ==
        if Stalls(unclaimed, io) then Progress(was, left, false)
        else Perform(ApplyWrite, was, AllTierWrites(job, SeenTiers(was, job.server, job.account), unclaimed), left)
  {
    remaining := left;
    var journey, tags, seen;
    journey, tags, err := FetchSignals(io, needsJourney, needsTags);
    if err.Some? { return; }
    seen, err := store.SeenUnsatisfiedKeys(job.account, io.seenError);
    if err.Some? { return; }
    assert seen == SeenTiers(store.db.Contents(), job.server, job.account) by {
      forall t ensures t in seen <==> t in SeenTiers(store.db.Contents(), job.server, job.account) {
        ClaimedTierKnown(store.db.Contents(), job, t);
      }
    }
    var loaded := job.(journey := journey, tags := tags);
    LoadedSignalsSuffice(job, loaded, seen, unclaimed);
    remaining, err := RecordTiers(store, unclaimed, loaded, seen, left, io);
  }

  /** Enqueueing leaves the markers alone. */
  lemma {:induction false} EnqueuesKeepMarkers(db: Db, ws: seq<Write>, left: nat)
    requires forall w :: w in ws ==> w.Enqueue?
    ensures Perform(ApplyWrite, db, ws, left).state.seen == db.seen
    decreases |ws|
  {
    if ws != [] && left > 0 {
      assert ws[0] in ws;
      EnqueuesKeepMarkers(ApplyWrite(db, ws[0]), ws[1..], left - 1);
    }
  }

  /** The whole evaluation, as retroactive writes and then tier writes. */
  ghost function Evaluating(db: Db, order: seq<string>, job: Job, io: EvalIo): Progress<Db> {
    if io.claimedError.Some? then Progress(db, io.writes, false)
    else
      var unclaimed := Unclaimed(job.tiers, ClaimedTiers(db, job.server, job.account));
      var p := Perform(ApplyWrite, db, RetroWrites(order, job), io.writes);
      if !p.ok || unclaimed == [] then p
      else if Stalls(unclaimed, io) then Progress(p.state, p.left, false)
      else Perform(ApplyWrite, p.state, AllTierWrites(job, SeenTiers(db, job.server, job.account), unclaimed), p.left)
  }

  lemma EvaluatingIsOutcome(db: Db, order: seq<string>, job: Job, io: EvalIo)
    ensures
      var p, n := Evaluating(db, order, job, io), Reached(db, order, job, io);
      p.state == Apply(db, Plan(db, order, job)[..n])
      && (p.ok <==> io.claimedError.None? && n == |Plan(db, order, job)|)
  {
    var unclaimed := Unclaimed(job.tiers, ClaimedTiers(db, job.server, job.account));
    var retro, rest := RetroWrites(order, job), AllTierWrites(job, SeenTiers(db, job.server, job.account), unclaimed);
    if io.claimedError.None? {
      PerformsPrefix(db, retro, io.writes);
      if Stalls(unclaimed, io) {
        assert |rest| > 0;
        assert retro[..Min(io.writes, |retro|)] == (retro + rest)[..Min(io.writes, |retro|)];
      } else {
        PerformInParts(ApplyWrite, db, retro, rest, io.writes);
        PerformsPrefix(db, retro + rest, io.writes);
      }
    }
  }

  /** evaluateBattlepassPlayer: some prefix of the plan gets written, the whole plan unless
      a read or a write fails; the signals fetched lazily count as the full sets. */
  method EvaluatePlayer(store: BattlepassStore, tiers: seq<Tier>, p: Player, awardPast: bool, autoGrant: bool, io: EvalIo)
    returns (err: Option<Error>, ghost run: PlayerRun)
    requires DistinctKeys(tiers)
    modifies store.db
    ensures run.job == JobOf(store.serverID, tiers, p, awardPast, autoGrant, io)
    ensures CanRun(old(store.db.Contents()), run)
    ensures run.stop.writes == Reached(old(store.db.Contents()), run.stop.order, run.job, io)
    ensures store.db.Contents() == Outcome(old(store.db.Contents()), run)
    ensures err.None? <==> io.claimedError.None? && run.stop.writes == |Plan(old(store.db.Contents()), run.stop.order, run.job)|
  {
    ghost var was := store.db.Contents();
    var job := JobOf(store.serverID, tiers, p, awardPast, autoGrant, io);
    ghost var order;
    err, order := EvaluateJob(store, job, io);
    EvaluatingIsOutcome(was, order, job, io);
    run := PlayerRun(job, Stop(order, Reached(was, order, job, io)));
  }

  method EvaluateJob(store: BattlepassStore, job: Job, io: EvalIo) returns (err: Option<Error>, ghost order: seq<string>)
    requires job.server == store.serverID
    requires job.journey == (set n | n in io.journeyNodes) && job.tags == (set t | t in io.playerTags)
    modifies store.db
    ensures ListsEarned(order, old(store.db.Contents()), job)
    ensures store.db.Contents() == Evaluating(old(store.db.Contents()), order, job, io).state
    ensures err.None? == Evaluating(old(store.db.Contents()), order, job, io).ok
  {
    ghost var was := store.db.Contents();
    var claimed;
    claimed, err := store.ClaimedKeys(job.account, io.claimedError);
    if err.Some? {
      order := EarnedOrder(was, job);
      return;
    }
    ClaimedMapKeys(was, job, claimed);
    var unclaimed, needsJourney, needsTags := UnclaimedTiers(job.tiers, claimed);
    var earned := RetroactiveTiers(claimed);
    order := earned;
    var left: nat;
    left, err := EnqueueRetroactive(store, earned, job, io);
    if err.Some? { return; }
    EnqueuesKeepMarkers(was, RetroWrites(earned, job), io.writes);
    if |unclaimed| > 0 {
      left, err := RecordSatisfied(store, unclaimed, job, needsJourney, needsTags, left, io);
    }
  }

  lemma ClaimedMapKeys(db: Db, job: Job, claimed: map<string, ClaimStatus>)
    requires forall t :: t in claimed <==> KeyOf(job, t) in db.claims
    ensures claimed.Keys == ClaimedTiers(db, job.server, job.account)
  {}

  /** Some enumeration of the account's earned tiers. */
  ghost function EarnedOrder(db: Db, job: Job): (order: seq<string>)
    ensures ListsEarned(order, db, job)
  {
    var earned := set k | k in db.claims && Owns(job, k) && db.claims[k].status == Earned :: k.tier;
    assert forall t :: t in earned <==> At(db, KeyOf(job, t)).Holds(Earned) by {
      forall t ensures t in earned <==> At(db, KeyOf(job, t)).Holds(Earned) {
        if At(db, KeyOf(job, t)).Holds(Earned) { assert KeyOf(job, t).tier in earned; }
      }
    }
    Listed(earned)
  }

  ghost function Listed(s: set<string>): (order: seq<string>)
    ensures forall t :: t in order <==> t in s
    ensures forall i, j :: 0 <= i < j < |order| ==> order[i] != order[j]
  {
    if s == {} then []
    else
      var t :| t in s;
      Listed(s - {t}) + [t]
  }

  // ----- One tick -----

  datatype TickIo = TickIo(
    tiersError: Option<Error>, playersError: Option<Error>,
    players: seq<(Player, EvalIo)>,
    cancelledAt: Option<nat>)   // the player before whom the pacing pause is cancelled

  const SCAN_CANCELLED := Error(false, "context canceled")

  lemma TickOneMore(db: Db, runs: seq<PlayerRun>, run: PlayerRun)
    requires CanTick(db, runs) && CanRun(Tick(db, runs), run)
    ensures CanTick(db, runs + [run])
    ensures Tick(db, runs + [run]) == Outcome(Tick(db, runs), run)
    ensures Tick(db, runs + [run]).tiers == Tick(db, runs).tiers
  {
    assert (runs + [run])[..|runs|] == runs;
    OutcomeKeepsCatalogue(Tick(db, runs), run);
  }

  lemma NoPlayers(db: Db, players: seq<(Player, EvalIo)>)
    ensures CanTick(db, []) && Tick(db, []) == db && CanRunAll(db, []) && AllReached(db, [], players)
  {}

  /** The j-th evaluation makes the writes its own reads and writes let it, on the tables
      the earlier ones have left. */
  ghost predicate ReachedAt(db: Db, runs: seq<PlayerRun>, j: nat, io: EvalIo)
    requires j < |runs|
  {
    CanTick(db, runs[..j])
    && runs[j].stop.writes == Reached(Tick(db, runs[..j]), runs[j].stop.order, runs[j].job, io)
  }

  ghost predicate AllReached(db: Db, runs: seq<PlayerRun>, players: seq<(Player, EvalIo)>) {
    |runs| <= |players| && forall j :: 0 <= j < |runs| ==> ReachedAt(db, runs, j, players[j].1)
  }

  lemma OneMoreReached(db: Db, runs: seq<PlayerRun>, run: PlayerRun, players: seq<(Player, EvalIo)>)
    requires AllReached(db, runs, players) && |runs| < |players|
    requires CanTick(db, runs)
    requires run.stop.writes == Reached(Tick(db, runs), run.stop.order, run.job, players[|runs|].1)
    ensures AllReached(db, runs + [run], players)
  {
    hide Reached, Tick, CanTick;
    var more := runs + [run];
    forall j | 0 <= j < |more| ensures ReachedAt(db, more, j, players[j].1) {
      assert more[..j] == runs[..j];
      if j == |runs| { assert runs[..j] == runs; } else { assert ReachedAt(db, runs, j, players[j].1); }
    }
  }

  /** evaluateBattlepassTick: every player in turn, unless a pause before one is cancelled;
      a player's failure is logged and does not stop the others. */
  method EvaluateTick(store: BattlepassStore, awardPast: bool, autoGrant: bool, paced: bool, io: TickIo)
    returns (err: Option<Error>, ghost runs: seq<PlayerRun>)
    requires store.db.UniqueTierKeys()
    modifies store.db
    ensures
      var tiers := if store.serverID in old(store.db.tiers) then old(store.db.tiers)[store.serverID] else [];
      var starts := io.tiersError == None && tiers != [] && io.playersError == None;
      var cut := paced && io.cancelledAt.Some? && 0 < io.cancelledAt.value < |io.players|;
      |runs| == (if !starts then 0 else if cut then io.cancelledAt.value else |io.players|)
      && err == (if io.tiersError.Some? then io.tiersError
                 else if tiers == [] then None
                 else if io.playersError.Some? then io.playersError
                 else if cut then Some(SCAN_CANCELLED) else None)
      && forall i :: 0 <= i < |runs| ==> runs[i].job == JobOf(store.serverID, tiers, io.players[i].0, awardPast, autoGrant, io.players[i].1)
    ensures CanTick(old(store.db.Contents()), runs)
    ensures AllReached(old(store.db.Contents()), runs, io.players)
    ensures DistinctPlayers(runs) ==> CanRunAll(old(store.db.Contents()), runs)
    ensures store.db.Contents() == Tick(old(store.db.Contents()), runs)
    ensures store.db.UniqueTierKeys()
  {
    hide Outcome, Plan, Reached, Tick, CanTick, CanRun, JobOf, AllReached, DistinctPlayers, CanRunAll;
    ghost var was := store.db.Contents();
    runs := [];
    NoPlayers(was, io.players);
    var tiers;
    tiers, err := store.ListTiers(io.tiersError);
    if err.Some? || |tiers| == 0 { return; }
    if io.playersError.Some? { err := io.playersError; return; }
    var i := 0;
    while i < |io.players|
      invariant 0 <= i <= |io.players| && |runs| == i && err == None
      invariant i > 0 && paced && io.cancelledAt.Some? && 0 < io.cancelledAt.value ==> i <= io.cancelledAt.value
      invariant forall j :: 0 <= j < i ==> runs[j].job == JobOf(store.serverID, tiers, io.players[j].0, awardPast, autoGrant, io.players[j].1)
      invariant CanTick(was, runs) && store.db.Contents() == Tick(was, runs) && AllReached(was, runs, io.players)
      invariant store.db.Contents().tiers == was.tiers
    {
      if i > 0 && paced && io.cancelledAt == Some(i) {
        err := Some(SCAN_CANCELLED);
        break;
      }
      var logged;
      ghost var run;
      logged, run := EvaluatePlayer(store, tiers, io.players[i].0, awardPast, autoGrant, io.players[i].1);
      TickOneMore(was, runs, run);
      OneMoreReached(was, runs, run, io.players);
      runs := runs + [run];
      i := i + 1;
    }
    if DistinctPlayers(runs) { TickRunsStartTogether(was, runs); }
  }

  predicate ReadsSucceed(io: EvalIo) {
    io.claimedError.None? && io.journeyError.None? && io.tagsError.None? && io.seenError.None?
  }

  /** A tick of distinct players in which nothing fails is complete, so its outcome does not
      depend on any of its orders. */
  lemma FaultlessTickCompletes(db: Db, runs: seq<PlayerRun>, players: seq<(Player, EvalIo)>)
    requires DistinctPlayers(runs) && CanRunAll(db, runs) && AllReached(db, runs, players)
    requires forall j :: 0 <= j < |runs| ==>
               ReadsSucceed(players[j].1) && |Plan(db, runs[j].stop.order, runs[j].job)| <= players[j].1.writes
    ensures AllComplete(db, runs)
  {
    forall j | 0 <= j < |runs| ensures Complete(db, runs[j]) {
      hide Plan, Tick, CanTick, CanRun, Unclaimed, RetroWrites;
      RowsAsAtStart(db, runs, j);
      assert ReachedAt(db, runs, j, players[j].1);
      SameRowsSamePlan(db, Tick(db, runs[..j]), runs[j].stop.order, runs[j].job);
    }
  }
}
