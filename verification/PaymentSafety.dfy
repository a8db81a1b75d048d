/** No reward is delivered twice: over whole runs, with game-side failures, crashes, lost
    writes, operators and catalogue edits at any point. */
module PaymentSafety {
  import opened Options
  import opened BattlepassTables
  import opened Evaluation
  import opened Delivery
  import opened Protocol
  import opened Listing
  import opened Scenarios

  // ----- Automatic delivery, once ever -----

  /** The retry loop awards a tier's intel to an account at most once, ever: not again
      after a purge, a demote, a heal or a catalogue edit, and whatever else fails. Only
      the paying attempt's own seal has to be written. */
  lemma AutomaticDeliveryAtMostOnceEver(ws: seq<World>, steps: seq<Step>, i: nat, j: nat, k: Key)
    requires FreshRun(ws, steps) && i < j < |steps|
    requires AutoPays(ws[i], steps[i], k) && !steps[i].io.lostSeal
    ensures !AutoPays(ws[j], steps[j], k)
  {
    hide At, Next, Enabled, Catalogued;
    StepOnCell(ws[i], steps[i], k);
    SealedForever(ws, steps, i + 1, j, k);
  }

  // ----- One lost write is harmless -----

  /** After a delivery that lost its claim flip or its ledger seal, but not both, the loop
      does not deliver that tier again until the claim is purged. */
  lemma OneLostWriteIsHarmless(ws: seq<World>, steps: seq<Step>, i: nat, j: nat, k: Key)
    requires FreshRun(ws, steps) && i < j < |steps| && NoPurge(steps, i, j, k)
    requires AutoPays(ws[i], steps[i], k) && !(steps[i].io.lostFlip && steps[i].io.lostSeal)
    ensures !AutoPays(ws[j], steps[j], k)
  {
    hide At, Next, Enabled, Catalogued;
    if !steps[i].io.lostSeal {
      AutomaticDeliveryAtMostOnceEver(ws, steps, i, j, k);
    } else {
      RunOnCell(ws, steps, k);
      assert CellStep(ws[i].db, steps[i], k, At(ws[i].db, k), At(ws[i + 1].db, k));
      GrantedUntilPurge(ws, steps, i + 1, j, k);
    }
  }

  function BothLost(now: nat): AttemptIo {
    AttemptIo(None, None, None, None, None, true, true, false, now)
  }

  /** Losing both records does pay twice, in a run from the empty database: one earned
      claim, two listings, two awards. */
  lemma TwoLostWritesPayTwice(k: Key, tier: Tier, job: Job, now: nat) returns (ws: seq<World>, steps: seq<Step>)
    requires ForKey(job, k, tier) && Names(k, tier) && Meets(job, tier) && job.awardPast && job.autoGrant
    ensures FreshRun(ws, steps) && |steps| == 6
    ensures AutoPays(ws[3], steps[3], k) && AutoPays(ws[5], steps[5], k)
  {
    hide Next, Enabled, Sole, Catalogued, At;
    var c, io := Enlisted(tier), BothLost(now);
    var list, grant := ListDue(k.server, now), TryGrant(k, io);
    var idle, listed := World(Sole(k, tier, c), {}), World(Sole(k, tier, c), {k});
    ListingSole(k, tier, c, now);
    Attempting(k, tier, c, io);
    SoleCell(k, tier, c);
    ws, steps := Enlisting(k, tier, job);
    Extended(ws, steps, list, listed);
    ws, steps := ws + [listed], steps + [list];
    Extended(ws, steps, grant, idle);
    ws, steps := ws + [idle], steps + [grant];
    Extended(ws, steps, list, listed);
    ws, steps := ws + [listed], steps + [list];
    Extended(ws, steps, grant, idle);
    ws, steps := ws + [idle], steps + [grant];
  }

  // ----- Paid exactly when granted -----

  /** The claim flip after an award is written. */
  predicate KeepsFlips(step: Step) {
    match step
    case TryGrant(_, io) => !io.lostFlip
    case GrantTier(_, io) => !io.lostMark
    case GrantAccount(_, _, io) => !io.lostMark
    case _ => true
  }

  lemma {:induction false} GrantedUntilPurge(ws: seq<World>, steps: seq<Step>, i: nat, j: nat, k: Key)
    requires CellRun(ws, steps, k) && i <= j <= |steps| && NoPurge(steps, i, j, k)
    requires At(ws[i].db, k).Holds(Granted)
    ensures At(ws[j].db, k).Holds(Granted)
  {
    hide At, Next, Enabled, Catalogued;
    if i < j {
      GrantedUntilPurge(ws, steps, i, j - 1, k);
      assert CellStep(ws[j - 1].db, steps[j - 1], k, At(ws[j - 1].db, k), At(ws[j].db, k));
    }
  }

  /** Between two purges a tier is paid at most once, whether by the loop or by hand. */
  lemma PaidAtMostOncePerPurge(ws: seq<World>, steps: seq<Step>, i: nat, j: nat, k: Key)
    requires Run(ws, steps) && i < j < |steps| && NoPurge(steps, i, j, k)
    requires KeepsFlips(steps[i])
    requires Pays(ws[i], steps[i], k)
    ensures !Pays(ws[j], steps[j], k)
  {
    hide At, Next, Enabled, Catalogued;
    RunOnCell(ws, steps, k);
    assert CellStep(ws[i].db, steps[i], k, At(ws[i].db, k), At(ws[i + 1].db, k));
    GrantedUntilPurge(ws, steps, i + 1, j, k);
  }

  lemma GrantedOnlyByPaying(w: World, step: Step, k: Key)
    requires Enabled(w, step) && (Pays(w, step, k) ==> KeepsFlips(step))
    ensures At(Next(w, step).db, k).Holds(Granted) <==>
            Pays(w, step, k) || (At(w.db, k).Holds(Granted) && !PurgesClaim(step, k))
  {
    hide At, Next, Enabled, Catalogued;
    StepOnCell(w, step, k);
  }

  lemma PaidSincePurgeStep(ws: seq<World>, steps: seq<Step>, j: nat, k: Key)
    requires |ws| == |steps| + 1 && 0 < j <= |steps|
    ensures PaidSincePurge(ws, steps, j, k) <==>
            Pays(ws[j - 1], steps[j - 1], k) || (PaidSincePurge(ws, steps, j - 1, k) && !PurgesClaim(steps[j - 1], k))
  {}

  /** When the flips of its payments are kept, a claim is granted exactly when the tier has
      been paid since the last purge. */
  lemma {:induction false} GrantedIffPaid(ws: seq<World>, steps: seq<Step>, j: nat, k: Key)
    requires FreshRun(ws, steps) && j <= |steps|
    requires forall m :: 0 <= m < j && Pays(ws[m], steps[m], k) ==> KeepsFlips(steps[m])
    ensures At(ws[j].db, k).Holds(Granted) <==> PaidSincePurge(ws, steps, j, k)
  {
    hide At, Next, Enabled, Catalogued;
    FreshCell(k);
    if j > 0 {
      GrantedIffPaid(ws, steps, j - 1, k);
      GrantedOnlyByPaying(ws[j - 1], steps[j - 1], k);
      PaidSincePurgeStep(ws, steps, j, k);
    }
  }
}
