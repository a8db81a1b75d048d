/** What a player evaluation promises: it can be stopped and repeated, it does not depend
    on the order of tiers, on lazily loaded signals, or on anything but its own rows. */
module EvaluationLaws {
  import opened Options
  import opened BattlepassTables
  import opened Evaluation

  // ----- Crashes and repetition -----

  lemma CatalogueUntouched(db: Db, order: seq<string>, job: Job)
    requires DistinctKeys(job.tiers) && ListsEarned(order, db, job)
    ensures Apply(db, Plan(db, order, job)).tiers == db.tiers
  {
    var ws := Plan(db, order, job);
    assert ws[..|ws|] == ws;
    PrefixBetween(db, order, job, |ws|);
  }

  lemma StoppedCellResumes(job: Job, k: Key, c: Cell, c1: Cell)
    requires Between(job, k, c, c1)
    ensures After(job, k, c1) == After(job, k, c)
  {}

  lemma StoppedEvaluationResumes(db: Db, order: seq<string>, job: Job, stopped: Db, again: seq<string>)
    requires DistinctKeys(job.tiers) && ListsEarned(order, db, job)
    requires AllBetween(job, db, stopped) && ListsEarned(again, stopped, job)
    ensures Apply(stopped, Plan(stopped, again, job)) == Apply(db, Plan(db, order, job))
  {
    var resumed, whole := Apply(stopped, Plan(stopped, again, job)), Apply(db, Plan(db, order, job));
    CatalogueUntouched(db, order, job);
    CatalogueUntouched(stopped, again, job);
    forall k ensures At(resumed, k) == At(whole, k) {
      assert Between(job, k, At(db, k), At(stopped, k));
      PlanReaches(db, order, job, k);
      PlanReaches(stopped, again, job, k);
      StoppedCellResumes(job, k, At(db, k), At(stopped, k));
    }
    SameCellsSameDb(resumed, whole);
  }

  /** One stopped run: the order its retroactive grants took, and the writes it made. */
  datatype Stop = Stop(order: seq<string>, writes: nat)

  ghost predicate CanStop(db: Db, job: Job, stop: Stop) {
    ListsEarned(stop.order, db, job) && stop.writes <= |Plan(db, stop.order, job)|
  }

  ghost function Stopped(db: Db, job: Job, stop: Stop): Db
    requires CanStop(db, job, stop)
  {
    Apply(db, Plan(db, stop.order, job)[..stop.writes])
  }

  ghost predicate CanStopAll(db: Db, job: Job, stops: seq<Stop>)
    decreases |stops|
  {
    stops == [] || (CanStop(db, job, stops[0]) && CanStopAll(Stopped(db, job, stops[0]), job, stops[1..]))
  }

  ghost function StoppedAll(db: Db, job: Job, stops: seq<Stop>): Db
    requires CanStopAll(db, job, stops)
    decreases |stops|
  {
    if stops == [] then db else StoppedAll(Stopped(db, job, stops[0]), job, stops[1..])
  }

  /** However often an evaluation is cut off, after whichever of its writes, the run that
      completes leaves the tables one undisturbed run would have left. */
  lemma {:induction false} CrashesLeaveNoTrace(db: Db, order: seq<string>, job: Job, stops: seq<Stop>, again: seq<string>)
    requires DistinctKeys(job.tiers) && ListsEarned(order, db, job)
    requires CanStopAll(db, job, stops) && ListsEarned(again, StoppedAll(db, job, stops), job)
    ensures Apply(StoppedAll(db, job, stops), Plan(StoppedAll(db, job, stops), again, job)) == Apply(db, Plan(db, order, job))
    decreases |stops|
  {
    if stops == [] {
      PrefixBetween(db, order, job, 0);
      assert Plan(db, order, job)[..0] == [];
      StoppedEvaluationResumes(db, order, job, db, again);
    } else {
      var stopped := Stopped(db, job, stops[0]);
      PrefixBetween(db, stops[0].order, job, stops[0].writes);
      var next := if stops[1..] == [] then again else stops[1].order;
      assert CanStopAll(stopped, job, stops[1..]);
      assert StoppedAll(db, job, stops) == StoppedAll(stopped, job, stops[1..]);
      assert stops[1..] != [] ==> stops[1..][0] == stops[1];
      CrashesLeaveNoTrace(stopped, next, job, stops[1..], again);
      StoppedEvaluationResumes(db, order, job, stopped, next);
    }
  }

  /** A second evaluation with nothing new to see changes nothing. */
  lemma SecondEvaluationIsIdle(db: Db, order: seq<string>, job: Job, again: seq<string>)
    requires DistinctKeys(job.tiers) && ListsEarned(order, db, job)
    requires ListsEarned(again, Apply(db, Plan(db, order, job)), job)
    ensures
      var once := Apply(db, Plan(db, order, job));
      Apply(once, Plan(once, again, job)) == once
  {
    var ws := Plan(db, order, job);
    assert ws[..|ws|] == ws;
    PrefixBetween(db, order, job, |ws|);
    StoppedEvaluationResumes(db, order, job, Apply(db, ws), again);
  }

  // ----- The ledger after an evaluation -----

  /** With auto-grant on, a complete evaluation leaves every earned claim of the account
      with a ledger row, and no existing claim or row is changed, whoever owns it. */
  lemma EveryEarnedClaimIsEnqueued(db: Db, order: seq<string>, job: Job, k: Key)
    requires DistinctKeys(job.tiers) && ListsEarned(order, db, job)
    ensures
      var c, c1 := At(db, k), At(Apply(db, Plan(db, order, job)), k);
      (c.claim.Some? ==> c1.claim == c.claim) && (c.row.Some? ==> c1.row == c.row)
      && (job.autoGrant && Owns(job, k) && c1.Holds(Earned) ==> c1.row.Some?)
      && (c.row.None? && c1.row.Some? ==> job.autoGrant && Owns(job, k) && c1.Holds(Earned) && c1.row == Some(GrantRow(Pending, 0, "", "")))
  {
    PlanReaches(db, order, job, k);
  }

  /** battlepassTierAction, as the tables show it: which claims a complete evaluation
      creates, with which status, and which markers. */
  lemma ClaimsAreCreatedOnSatisfaction(db: Db, order: seq<string>, job: Job, t: Tier)
    requires DistinctKeys(job.tiers) && ListsEarned(order, db, job)
    requires t in job.tiers
    ensures
      var k := KeyOf(job, t.key);
      var c, c1 := At(db, k), At(Apply(db, Plan(db, order, job)), k);
      var met := Satisfied(t, job.level, job.journey, job.tags);
      (c.claim.None? ==>
        (c1.claim.Some? <==> t.enabled && met)
        && (c1.Holds(Earned) <==> t.enabled && met && (job.awardPast || c.seen))
        && (c1.Holds(Baseline) <==> t.enabled && met && !job.awardPast && !c.seen)
        && (c1.claim.Some? ==> c1.claim.value.intel == t.intel))
      && (c1.seen <==> c.seen || (t.enabled && c.claim.None? && !met))
  {
    PlanReaches(db, order, job, KeyOf(job, t.key));
    TierIsNamed(job.tiers, t);
  }

  // ----- Order of tiers -----

  lemma PermutedTiersNameTheSame(tiers: seq<Tier>, permuted: seq<Tier>, key: string)
    requires DistinctKeys(tiers) && DistinctKeys(permuted) && multiset(tiers) == multiset(permuted)
    ensures TierNamed(tiers, key) == TierNamed(permuted, key)
  {
    forall t ensures t in tiers <==> t in permuted {
      assert t in multiset(tiers) <==> t in multiset(permuted);
    }
    var a, b := TierNamed(tiers, key), TierNamed(permuted, key);
    if a.Some? { TierIsNamed(permuted, a.value); }
    if b.Some? { TierIsNamed(tiers, b.value); }
  }

  lemma SameSight(job: Job, permuted: seq<Tier>, k: Key, c: Cell)
    requires DistinctKeys(job.tiers) && DistinctKeys(permuted) && multiset(job.tiers) == multiset(permuted)
    ensures After(job, k, c) == After(job.(tiers := permuted), k, c)
  {
    PermutedTiersNameTheSame(job.tiers, permuted, k.tier);
  }

  /** Shuffling the catalogue listing, and the retroactive grants, changes nothing. */
  lemma TierOrderIsIrrelevant(db: Db, job: Job, order: seq<string>, permuted: seq<Tier>, other: seq<string>)
    requires DistinctKeys(job.tiers) && DistinctKeys(permuted) && multiset(job.tiers) == multiset(permuted)
    requires ListsEarned(order, db, job) && ListsEarned(other, db, job.(tiers := permuted))
    ensures Apply(db, Plan(db, order, job)) == Apply(db, Plan(db, other, job.(tiers := permuted)))
  {
    var job1 := job.(tiers := permuted);
    var x, y := Apply(db, Plan(db, order, job)), Apply(db, Plan(db, other, job1));
    CatalogueUntouched(db, order, job);
    CatalogueUntouched(db, other, job1);
    forall k ensures At(x, k) == At(y, k) {
      PlanReaches(db, order, job, k);
      PlanReaches(db, other, job1, k);
      SameSight(job, permuted, k, At(db, k));
    }
    SameCellsSameDb(x, y);
  }

  // ----- Lazily loaded signals -----

  predicate Needs(tiers: seq<Tier>, signal: Signal) {
    exists t :: t in tiers && t.signal == signal
  }

  /** fetchBattlepassSignals: a signal set no unclaimed enabled tier needs stays empty. */
  function Lazy(db: Db, job: Job): Job {
    var unclaimed := Unclaimed(job.tiers, ClaimedTiers(db, job.server, job.account));
    job.(journey := if Needs(unclaimed, JourneyNode) then job.journey else {},
         tags := if Needs(unclaimed, PlayerTag) then job.tags else {})
  }

  lemma {:induction false} SameTierWrites(job: Job, lazy: Job, seen: set<string>, tiers: seq<Tier>)
    requires lazy == job.(journey := lazy.journey, tags := lazy.tags)
    requires forall t :: t in tiers ==>
               Satisfied(t, job.level, job.journey, job.tags) == Satisfied(t, job.level, lazy.journey, lazy.tags)
    ensures AllTierWrites(job, seen, tiers) == AllTierWrites(lazy, seen, tiers)
  {
    if tiers != [] {
      SameTierWrites(job, lazy, seen, tiers[1..]);
      assert tiers[0] in tiers;
    }
  }

  /** Fetching only the needed signal sets leads to the very same writes. */
  lemma LazySignalsChangeNothing(db: Db, order: seq<string>, job: Job)
    ensures Plan(db, order, Lazy(db, job)) == Plan(db, order, job)
  {
    var unclaimed := Unclaimed(job.tiers, ClaimedTiers(db, job.server, job.account));
    SameTierWrites(job, Lazy(db, job), SeenTiers(db, job.server, job.account), unclaimed);
    assert RetroWrites(order, Lazy(db, job)) == RetroWrites(order, job);
  }
}
