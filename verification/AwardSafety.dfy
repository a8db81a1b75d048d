/** What may be earned: only watched transitions, never again after a reset. */
module AwardSafety {
  import opened Options
  import opened BattlepassTables
  import opened Evaluation
  import opened Ticks
  import opened Delivery
  import opened Protocol
  import opened Scenarios

  predicate AwardPastOff(step: Step) {
    step.Evaluate? ==> !step.run.job.awardPast
  }

  // ----- Every earned claim was witnessed -----

  /** This evaluation looked at k's unclaimed tier for k's account, found it unsatisfied,
      and put the marker there. */
  predicate Watched(w: World, step: Step, w1: World, k: Key) {
    step.Evaluate? && Observe(step.run.job, k) == Unmet && At(w.db, k).claim.None?
    && !At(w.db, k).seen && At(w1.db, k).seen
  }

  predicate WatchedAt(ws: seq<World>, steps: seq<Step>, i: nat, k: Key)
    requires |ws| == |steps| + 1 && i < |steps|
  {
    Watched(ws[i], steps[i], ws[i + 1], k)
  }

  ghost predicate WatchedSinceMarkersPurged(ws: seq<World>, steps: seq<Step>, j: nat, k: Key)
    requires |ws| == |steps| + 1 && j <= |steps|
  {
    exists i :: 0 <= i < j && WatchedAt(ws, steps, i, k) && forall m :: i < m < j ==> !PurgesMarker(steps[m], k)
  }

  /** A marker is there exactly when some evaluation put it there and no purge has taken it
      away since. */
  lemma {:induction false} MarkedIffWatched(ws: seq<World>, steps: seq<Step>, j: nat, k: Key)
    requires FreshRun(ws, steps) && j <= |steps|
    ensures At(ws[j].db, k).seen <==> WatchedSinceMarkersPurged(ws, steps, j, k)
  {
    hide At, Next, Enabled, Catalogued;
    FreshCell(k);
    if j > 0 {
      StepOnCell(ws[j - 1], steps[j - 1], k);
      MarkedIffWatched(ws, steps, j - 1, k);
      WatchedOneMore(ws, steps, j, k);
    }
  }

  lemma WatchedOneMore(ws: seq<World>, steps: seq<Step>, j: nat, k: Key)
    requires |ws| == |steps| + 1 && 0 < j <= |steps|
    ensures WatchedSinceMarkersPurged(ws, steps, j, k) <==>
            WatchedAt(ws, steps, j - 1, k)
            || (WatchedSinceMarkersPurged(ws, steps, j - 1, k) && !PurgesMarker(steps[j - 1], k))
  {
    hide WatchedAt;
    if WatchedSinceMarkersPurged(ws, steps, j, k) {
      var i :| 0 <= i < j && WatchedAt(ws, steps, i, k) && forall m :: i < m < j ==> !PurgesMarker(steps[m], k);
    }
  }

  predicate BecomesEarned(w: World, w1: World, k: Key) {
    !At(w.db, k).Holds(Earned) && At(w1.db, k).Holds(Earned)
  }

  lemma OnlyEvaluationEarns(w: World, step: Step, k: Key)
    requires Enabled(w, step) && AwardPastOff(step) && BecomesEarned(w, Next(w, step), k)
    ensures step.Evaluate? && Observe(step.run.job, k).Met? && At(w.db, k).seen
  {
    hide At, Next, Enabled, Catalogued;
    StepOnCell(w, step, k);
  }

  /** With award-past off, a claim becomes earned only by an evaluation that finds the tier
      satisfied after an earlier one saw that tier, for that account, unsatisfied; when
      every purge is paired, no purge of the account lies between the two. */
  lemma EarnedClaimsWereWitnessed(ws: seq<World>, steps: seq<Step>, j: nat, k: Key)
    requires FreshRun(ws, steps) && j < |steps| && AwardPastOff(steps[j])
    ensures BecomesEarned(ws[j], ws[j + 1], k) ==>
              steps[j].Evaluate? && Observe(steps[j].run.job, k).Met? && WatchedSinceMarkersPurged(ws, steps, j, k)
    ensures BecomesEarned(ws[j], ws[j + 1], k) && (forall m :: 0 <= m < j ==> Paired(steps[m])) ==>
              exists i :: 0 <= i < j && WatchedAt(ws, steps, i, k) && NoPurge(steps, i + 1, j, k)
  {
    hide At, Next, Enabled, Catalogued;
    if BecomesEarned(ws[j], ws[j + 1], k) {
      OnlyEvaluationEarns(ws[j], steps[j], k);
      MarkedIffWatched(ws, steps, j, k);
      var i :| 0 <= i < j && WatchedAt(ws, steps, i, k) && forall m :: i < m < j ==> !PurgesMarker(steps[m], k);
      if forall m :: 0 <= m < j ==> Paired(steps[m]) {
        assert NoPurge(steps, i + 1, j, k);
      }
    }
  }

  /** A tier no evaluation has marked unsatisfied since the last purge is only ever
      baselined, whenever it was added to the catalogue. */
  lemma UnwatchedTierIsOnlyBaselined(ws: seq<World>, steps: seq<Step>, j: nat, k: Key)
    requires FreshRun(ws, steps) && j < |steps|
    requires AwardPastOff(steps[j]) && !WatchedSinceMarkersPurged(ws, steps, j, k)
    requires At(ws[j].db, k).claim.None?
    ensures At(ws[j + 1].db, k).claim.None? || At(ws[j + 1].db, k).Holds(Baseline)
  {
    hide At, Next, Enabled, Catalogued;
    StepOnCell(ws[j], steps[j], k);
    if At(ws[j].db, k).seen { MarkedIffWatched(ws, steps, j, k); }
  }

  // ----- Purge -----

  /** A purge that deletes claims goes on to delete the markers. */
  predicate Paired(step: Step) {
    step.Purge? ==> step.done < 2 || step.done >= 3
  }

  predicate EvaluatesAccount(step: Step, k: Key) {
    step.Evaluate? && Owns(step.run.job, k)
  }

  lemma {:induction false} PurgedUntilEvaluated(ws: seq<World>, steps: seq<Step>, i: nat, j: nat, k: Key)
    requires CellRun(ws, steps, k) && i < j <= |steps|
    requires PurgesMarker(steps[i], k)
    requires forall m :: i < m < j ==> !EvaluatesAccount(steps[m], k)
    ensures At(ws[j].db, k).claim.None? && !At(ws[j].db, k).seen
  {
    hide At, Next, Enabled, Catalogued;
    assert CellStep(ws[j - 1].db, steps[j - 1], k, At(ws[j - 1].db, k), At(ws[j].db, k));
    if i < j - 1 { PurgedUntilEvaluated(ws, steps, i, j - 1, k); }
  }

  /** The first award-past-off evaluation after a paired purge earns nothing and enqueues
      nothing for the account, whatever else happened in between. */
  lemma PurgedAccountIsRebaselined(ws: seq<World>, steps: seq<Step>, i: nat, j: nat, k: Key)
    requires Run(ws, steps) && i < j < |steps|
    requires PurgesMarker(steps[i], k)
    requires forall m :: i < m < j ==> !EvaluatesAccount(steps[m], k)
    requires EvaluatesAccount(steps[j], k) && AwardPastOff(steps[j])
    ensures !At(ws[j + 1].db, k).Holds(Earned)
    ensures At(ws[j + 1].db, k).row == At(ws[j].db, k).row
  {
    hide At, Next, Enabled, Catalogued;
    RunOnCell(ws, steps, k);
    PurgedUntilEvaluated(ws, steps, i, j, k);
    assert CellStep(ws[j].db, steps[j], k, At(ws[j].db, k), At(ws[j + 1].db, k));
  }

  // ----- Purging the claims alone -----

  lemma {:induction false} ClaimlessUntilEvaluated(ws: seq<World>, steps: seq<Step>, i: nat, j: nat, k: Key)
    requires CellRun(ws, steps, k) && i < j <= |steps| && PurgesClaim(steps[i], k)
    requires forall m :: i < m < j ==> !EvaluatesAccount(steps[m], k) && !PurgesMarker(steps[m], k)
    ensures At(ws[j].db, k).claim.None?
    ensures At(ws[j].db, k).seen <==> At(ws[i].db, k).seen && !PurgesMarker(steps[i], k)
  {
    hide At, Next, Enabled, Catalogued;
    assert CellStep(ws[j - 1].db, steps[j - 1], k, At(ws[j - 1].db, k), At(ws[j].db, k));
    if i < j - 1 { ClaimlessUntilEvaluated(ws, steps, i, j - 1, k); }
  }

  /** The evaluation makes all its writes. */
  ghost predicate Completes(w: World, step: Step) {
    step.Evaluate? && Complete(w.db, step.run)
  }

  lemma EvaluatedByRun(w: World, step: Step)
    requires Enabled(w, step) && Completes(w, step)
    ensures CanRun(w.db, step.run) && Complete(w.db, step.run) && Next(w, step).db == Outcome(w.db, step.run)
  {}

  /** After a purge of the claims, the next award-past-off evaluation re-earns a tier
      exactly when the purge left the markers, the tier was marked, and it is satisfied. */
  lemma ClaimsPurgeReearnsIff(ws: seq<World>, steps: seq<Step>, i: nat, j: nat, k: Key)
    requires Run(ws, steps) && i < j < |steps| && PurgesClaim(steps[i], k)
    requires forall m :: i < m < j ==> !EvaluatesAccount(steps[m], k) && !PurgesMarker(steps[m], k)
    requires EvaluatesAccount(steps[j], k) && AwardPastOff(steps[j]) && Completes(ws[j], steps[j])
    ensures At(ws[j + 1].db, k).Holds(Earned) <==>
            !PurgesMarker(steps[i], k) && At(ws[i].db, k).seen && Observe(steps[j].run.job, k).Met?
  {
    hide At, Next, Enabled, Catalogued, Completes, Complete, CanRun, Outcome;
    RunOnCell(ws, steps, k);
    ClaimlessUntilEvaluated(ws, steps, i, j, k);
    EvaluatedByRun(ws[j], steps[j]);
    CompleteOutcome(ws[j].db, steps[j].run, k);
  }

  /** One player's scans of the tier in question: unsatisfied, and later satisfied. */
  predicate TwoScans(k: Key, tier: Tier, low: Job, high: Job) {
    ForKey(low, k, tier) && ForKey(high, k, tier) && Names(k, tier)
    && !Meets(low, tier) && Meets(high, tier) && !low.awardPast && !high.awardPast
  }

  const FAULTLESS := ManualIo(None, None, None, false, false)

  function Marked(claim: Option<Claim>, row: Option<GrantRow>): Cell {
    Cell(claim, true, row)
  }

  function ClaimOf(status: ClaimStatus, tier: Tier): Option<Claim> {
    Some(Claim(status, tier.intel, 0, ""))
  }

  /** The tier is watched, earned, and granted by hand. */
  lemma GrantedByHand(k: Key, tier: Tier, low: Job, high: Job) returns (ws: seq<World>, steps: seq<Step>)
    requires TwoScans(k, tier, low, high)
    ensures FreshRun(ws, steps) && |steps| == 4 && forall m :: 0 <= m < 4 ==> AwardPastOff(steps[m])
    ensures HandPays(ws[3], steps[3], k) && ws[4] == World(Sole(k, tier, Marked(ClaimOf(Granted, tier), None)), {})
  {
    hide Next, Enabled, Sole, At;
    var c1, c2, c3 := Marked(None, None), Marked(ClaimOf(Earned, tier), None), Marked(ClaimOf(Granted, tier), None);
    var manual := high.(autoGrant := false);
    Stocking(k, tier);
    Evaluating(k, tier, BLANK, low);
    EvaluatedSole(k, tier, BLANK, low);
    Evaluating(k, tier, c1, manual);
    EvaluatedSole(k, tier, c1, manual);
    GrantingByHand(k, tier, c2, FAULTLESS);
    SoleCell(k, tier, c2);
    ws := [EMPTY, World(Sole(k, tier, BLANK), {}), World(Sole(k, tier, c1), {}), World(Sole(k, tier, c2), {}), World(Sole(k, tier, c3), {})];
    steps := [EditCatalogue(k.server, [tier]), Evaluate(WholeRun(Sole(k, tier, BLANK), low)),
              Evaluate(WholeRun(Sole(k, tier, c1), manual)), GrantTier(k, FAULTLESS)];
  }

  /** Purging the claims alone pays twice, in a run from the empty database with award-past
      off: a tier granted by hand is purged without its marker, earned and enqueued by the
      next scan, and delivered by the loop. */
  lemma UnpairedPurgeRedelivers(k: Key, tier: Tier, low: Job, high: Job, now: nat, io: AttemptIo)
    returns (ws: seq<World>, steps: seq<Step>)
    requires TwoScans(k, tier, low, high) && high.autoGrant && AllWell(io)
    ensures FreshRun(ws, steps) && |steps| == 8 && forall m :: 0 <= m < 8 ==> AwardPastOff(steps[m])
    ensures HandPays(ws[3], steps[3], k)
    ensures PurgesClaim(steps[4], k) && !PurgesMarker(steps[4], k)
    ensures AutoPays(ws[7], steps[7], k)
  {
    hide Next, Enabled, Sole, At, Catalogued;
    var granted, purged := Marked(ClaimOf(Granted, tier), None), Marked(None, None);
    var earned := Marked(ClaimOf(Earned, tier), Some(GrantRow(Pending, 0, "", "")));
    Purging(k, tier, granted, {}, 2);
    Evaluating(k, tier, purged, high);
    EvaluatedSole(k, tier, purged, high);
    ListingSole(k, tier, earned, now);
    Attempting(k, tier, earned, io);
    SoleCell(k, tier, earned);
    ws, steps := GrantedByHand(k, tier, low, high);
    var w5, w6 := World(Sole(k, tier, purged), {}), World(Sole(k, tier, earned), {});
    var w7, w8 := World(Sole(k, tier, earned), {k}), World(Sole(k, tier, AttemptCell(earned, Some(tier), io)), {});
    var purge, scan := Purge(k.server, k.account, 2), Evaluate(WholeRun(Sole(k, tier, purged), high));
    Extended(ws, steps, purge, w5);
    ws, steps := ws + [w5], steps + [purge];
    Extended(ws, steps, scan, w6);
    ws, steps := ws + [w6], steps + [scan];
    Extended(ws, steps, ListDue(k.server, now), w7);
    ws, steps := ws + [w7], steps + [ListDue(k.server, now)];
    Extended(ws, steps, TryGrant(k, io), w8);
    ws, steps := ws + [w8], steps + [TryGrant(k, io)];
  }

  // ----- Demote -----

  lemma {:induction false} DemotedUntilPurge(ws: seq<World>, steps: seq<Step>, i: nat, j: nat, k: Key)
    requires CellRun(ws, steps, k) && i <= j <= |steps| && NoPurge(steps, i, j, k)
    requires At(ws[i].db, k).claim.Some? && !At(ws[i].db, k).Holds(Earned)
    ensures At(ws[j].db, k).claim.Some? && At(ws[j].db, k).claim.value.status == At(ws[i].db, k).claim.value.status
  {
    hide At, Next, Enabled, Catalogued;
    if i < j {
      DemotedUntilPurge(ws, steps, i, j - 1, k);
      assert CellStep(ws[j - 1].db, steps[j - 1], k, At(ws[j - 1].db, k), At(ws[j].db, k));
    }
  }

  /** A tier that is claimed when a demote completes is never delivered again before a
      purge, by the loop or by hand, not even from a due list taken before the demote. */
  lemma DemotedTierIsNeverDelivered(ws: seq<World>, steps: seq<Step>, i: nat, j: nat, k: Key)
    requires Run(ws, steps) && i < j < |steps| && NoPurge(steps, i, j, k)
    requires steps[i].Demote? && steps[i].done >= 2 && InScope(k, steps[i].server, steps[i].account)
    requires At(ws[i].db, k).claim.Some?
    ensures !Pays(ws[j], steps[j], k)
    ensures At(ws[j].db, k).Holds(Granted) <==> At(ws[i].db, k).Holds(Granted)
  {
    hide At, Next, Enabled, Catalogued;
    RunOnCell(ws, steps, k);
    assert CellStep(ws[i].db, steps[i], k, At(ws[i].db, k), At(ws[i + 1].db, k));
    DemotedUntilPurge(ws, steps, i + 1, j, k);
  }
}
