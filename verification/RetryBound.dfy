/** The delivery loop makes a bounded number of attempts: each one that is not deferred
    for an online player, and whose ledger write is made, uses up part of a finite budget. */
module RetryBound {
  import opened Options
  import opened BattlepassTables
  import opened Evaluation
  import opened Delivery
  import opened Protocol
  import opened Listing
  import opened LedgerLaws
  import opened Scenarios
  import opened Sums

  /** Attempts a pending row has left. */
  ghost function Budget(ledger: map<Key, GrantRow>): map<Key, int> {
    map k | k in ledger && ledger[k].status == Pending :: MAX_ATTEMPTS - ledger[k].attempts
  }

  ghost function Remaining(w: World): int {
    Sum(Budget(w.db.ledger))
  }

  function PendingKeys(w: World): set<Key> {
    set k | k in w.db.ledger && w.db.ledger[k].status == Pending
  }

  /** Listed keys whose row a reset has deleted since: an attempt may still create one. */
  function Missing(w: World): set<Key> {
    set k | k in w.due && k !in w.db.ledger
  }

  /** What is left over all pending rows, and all that rows still to be created can have. */
  ghost function Potential(w: World): int {
    Remaining(w) + MAX_ATTEMPTS * |Missing(w)|
  }

  /** Anything but a new enqueue, a heal or a reset that changes the ledger: listings and
      attempts of any servers' loops, and every step that leaves the ledger alone. */
  ghost predicate Quiet(w: World, step: Step)
    requires Enabled(w, step)
  {
    step.ListDue? || step.TryGrant? || Next(w, step).db.ledger == w.db.ledger
  }

  predicate Deferral(w: World, step: Step) {
    step.TryGrant?
    && var verdict := Decide(At(w.db, step.k), Catalogued(w.db, step.k), step.io);
       verdict.Refused? && verdict.cause.online
  }

  /** The ledger write an attempt ends with, a seal or a recorded failure, is made. */
  predicate WriteLands(w: World, k: Key, io: AttemptIo) {
    if Decide(At(w.db, k), Catalogued(w.db, k), io).Refused? then !io.lostFailure else !io.lostSeal
  }

  predicate Spends(w: World, step: Step) {
    step.TryGrant? && !Deferral(w, step) && WriteLands(w, step.k, step.io)
  }

  // ----- One attempt -----

  lemma BudgetOutside(ledger: map<Key, GrantRow>, k: Key, row: GrantRow)
    ensures Budget(ledger[k := row]) - {k} == Budget(ledger) - {k}
  {}

  /** What one row contributes to the total. */
  function Share(ledger: map<Key, GrantRow>, k: Key): int {
    if k in ledger && ledger[k].status == Pending then MAX_ATTEMPTS - ledger[k].attempts else 0
  }

  lemma ShareOfBudget(ledger: map<Key, GrantRow>, k: Key)
    ensures Sum(Budget(ledger)) == Share(ledger, k) + Sum(Budget(ledger) - {k})
  {
    if k in Budget(ledger) { SumWithout(Budget(ledger), k); } else { assert Budget(ledger) - {k} == Budget(ledger); }
  }

  /** Writing one row moves the total by what that row's share moves. */
  lemma BudgetMoves(ledger: map<Key, GrantRow>, k: Key, row: GrantRow)
    ensures
      Sum(Budget(ledger[k := row])) - Sum(Budget(ledger)) ==
      (if row.status == Pending then MAX_ATTEMPTS - row.attempts else 0) - Share(ledger, k)
  {
    ShareOfBudget(ledger, k);
    ShareOfBudget(ledger[k := row], k);
    BudgetOutside(ledger, k, row);
  }

  lemma LedgerAfterAttempt(w: World, k: Key, io: AttemptIo)
    requires Enabled(w, TryGrant(k, io))
    ensures
      var row := AttemptCell(At(w.db, k), Catalogued(w.db, k), io).row;
      Next(w, TryGrant(k, io)).db.ledger == if row.Some? then w.db.ledger[k := row.value] else w.db.ledger
  {
    assert AttemptCell(At(w.db, k), Catalogued(w.db, k), io).row.None? ==> k !in w.db.ledger;
  }

  /** How an attempt on a listed key moves the key's share. */
  lemma ShareAfterAttempt(c: Cell, tier: Option<Tier>, io: AttemptIo)
    requires WellCounted(c) && (c.row.Some? ==> c.RowIs(Pending))
    ensures
      var row, verdict := AttemptCell(c, tier, io).row, Decide(c, tier, io);
      var before := if c.row.Some? then MAX_ATTEMPTS - c.row.value.attempts else 0;
      var share := if row.Some? && row.value.status == Pending then MAX_ATTEMPTS - row.value.attempts else 0;
      var lands := if verdict.Refused? then !io.lostFailure else !io.lostSeal;
      var spends := lands && !(verdict.Refused? && verdict.cause.online);
      (c.row.Some? ==> if spends then share < before else share == before)
      && (c.row.None? ==> share <= MAX_ATTEMPTS && (spends ==> share < MAX_ATTEMPTS)
                          && (share > 0 <==> verdict.Refused? && lands) && share >= 0)
  {}

  lemma AttemptMoves(w: World, k: Key, io: AttemptIo)
    requires Enabled(w, TryGrant(k, io)) && WellCounted(At(w.db, k)) && ListedPending(w, k)
    ensures
      var c := At(w.db, k);
      var row := AttemptCell(c, Catalogued(w.db, k), io).row;
      Remaining(Next(w, TryGrant(k, io))) - Remaining(w) ==
      (if row.Some? && row.value.status == Pending then MAX_ATTEMPTS - row.value.attempts else 0)
      - if c.row.Some? then MAX_ATTEMPTS - c.row.value.attempts else 0
  {
    hide Next, AttemptCell, Catalogued, Budget;
    LedgerAfterAttempt(w, k, io);
    var row := AttemptCell(At(w.db, k), Catalogued(w.db, k), io).row;
    if row.Some? {
      BudgetMoves(w.db.ledger, k, row.value);
    } else {
      RowsAreNotDropped(At(w.db, k), Catalogued(w.db, k), io);
    }
  }

  lemma RowsAreNotDropped(c: Cell, tier: Option<Tier>, io: AttemptIo)
    ensures c.row.Some? ==> AttemptCell(c, tier, io).row.Some?
  {}

  /** In every reachable state, what an attempt does to the attempts left over all pending
      rows: it lowers them exactly when the key still has its row, it is not deferred and its
      write is made; it raises them exactly when the row is gone and a failure is recorded. */
  lemma AttemptSpends(ws: seq<World>, steps: seq<Step>, j: nat, k: Key, io: AttemptIo)
    requires FreshRun(ws, steps) && j <= |steps| && Enabled(ws[j], TryGrant(k, io))
    ensures
      var w, w1 := ws[j], Next(ws[j], TryGrant(k, io));
      (Remaining(w1) < Remaining(w) <==> k in w.db.ledger && Spends(w, TryGrant(k, io)))
      && (Remaining(w1) > Remaining(w) <==>
            k !in w.db.ledger && Decide(At(w.db, k), Catalogued(w.db, k), io).Refused? && !io.lostFailure)
  {
    hide Next, AttemptCell, Decide, Catalogued, Remaining, Enabled;
    StatusFollowsAttempts(ws, steps, j, k);
    ListedKeysArePending(ws, steps, j, k);
    ListedIfEnabled(ws[j], k, io);
    AttemptMoves(ws[j], k, io);
    ShareAfterAttempt(At(ws[j].db, k), Catalogued(ws[j].db, k), io);
  }

  lemma ListedIfEnabled(w: World, k: Key, io: AttemptIo)
    requires Enabled(w, TryGrant(k, io))
    ensures k in w.due
  {}

  /** Such a rise is reachable: a reset deletes the row of a listed key, and the attempt's
      failure creates it again. */
  lemma StaleListingRaisesTheTotal(k: Key, tier: Tier, job: Job, now: nat, io: AttemptIo) returns (ws: seq<World>, steps: seq<Step>)
    requires ForKey(job, k, tier) && Names(k, tier) && Meets(job, tier) && job.awardPast && job.autoGrant
    requires io.statusError.Some? && !io.lostFailure
    ensures FreshRun(ws, steps) && |steps| == 5 && steps[4] == TryGrant(k, io)
    ensures PendingKeys(ws[4]) == {} && Remaining(ws[4]) == 0 < Remaining(ws[5])
  {
    hide Next, Remaining, AttemptCell, Catalogued;
    ws, steps := FailedReadBreaksAgreement(k, tier, job, now, io);
    SoleCell(k, tier, BLANK);
    AttemptSpends(ws, steps, 4, k, io);
    NothingPending(ws[4]);
  }

  lemma NothingPending(w: World)
    requires w.db.ledger == map[]
    ensures PendingKeys(w) == {} && Remaining(w) == 0
  {
    assert Budget(w.db.ledger) == map[];
  }

  // ----- Quiet runs -----

  lemma AttemptIsPaidFor(w: World, k: Key, io: AttemptIo)
    requires Enabled(w, TryGrant(k, io)) && WellCounted(At(w.db, k)) && ListedPending(w, k)
    ensures
      var w1 := Next(w, TryGrant(k, io));
      Potential(w1) + (if Spends(w, TryGrant(k, io)) then 1 else 0) <= Potential(w)
  {
    hide AttemptCell, Decide, Catalogued, Remaining;
    AttemptMoves(w, k, io);
    ShareAfterAttempt(At(w.db, k), Catalogued(w.db, k), io);
    LedgerAfterAttempt(w, k, io);
    RowsAreNotDropped(At(w.db, k), Catalogued(w.db, k), io);
    var w1 := Next(w, TryGrant(k, io));
    if k in w.db.ledger {
      assert Missing(w1) == Missing(w);
    } else {
      assert Missing(w1) == Missing(w) - {k} && k in Missing(w);
    }
  }

  /** Which steps that is: manual grants and catalogue edits always, an evaluation exactly
      when it creates no row, as it cannot with auto-grant off, and a heal exactly when it
      finds nothing to heal. */
  lemma QuietSteps(w: World, step: Step)
    requires Enabled(w, step)
    ensures step.GrantTier? || step.GrantAccount? || step.EditCatalogue? ==> Quiet(w, step)
    ensures step.Evaluate? ==>
              (Quiet(w, step) <==> forall k :: At(Next(w, step).db, k).row.Some? ==> At(w.db, k).row.Some?)
    ensures step.Evaluate? && !step.run.job.autoGrant ==> Quiet(w, step)
    ensures step.HealLedger? ==> (Quiet(w, step) <==> forall k :: NothingToHeal(At(w.db, k)))
  {
    if step.Evaluate? {
      EvaluationKeepsRows(w, step);
    } else if step.HealLedger? {
      HealIsIdempotent(w.db);
    }
  }

  lemma EvaluationKeepsRows(w: World, step: Step)
    requires Enabled(w, step) && step.Evaluate?
    ensures Quiet(w, step) <==> forall k :: At(Next(w, step).db, k).row.Some? ==> At(w.db, k).row.Some?
    ensures !step.run.job.autoGrant ==> Quiet(w, step)
  {
    var w1 := Next(w, step);
    forall k ensures EvaluatedRow(w, w1, step, k) { EvaluationKeepsRow(w, step, k); }
    if Quiet(w, step) {
      forall k ensures At(w1.db, k).row.Some? ==> At(w.db, k).row.Some? {}
    }
    if (forall k :: At(w1.db, k).row.Some? ==> At(w.db, k).row.Some?) || !step.run.job.autoGrant {
      forall k ensures k in w1.db.ledger <==> k in w.db.ledger
               ensures k in w.db.ledger ==> w1.db.ledger[k] == w.db.ledger[k] {
        assert EvaluatedRow(w, w1, step, k);
        assert At(w1.db, k).row.Some? ==> At(w.db, k).row.Some?;
      }
      assert w1.db.ledger == w.db.ledger;
    }
  }

  predicate EvaluatedRow(w: World, w1: World, step: Step, k: Key)
    requires step.Evaluate?
  {
    (At(w.db, k).row.Some? || !step.run.job.autoGrant ==> At(w1.db, k).row == At(w.db, k).row)
  }

  lemma EvaluationKeepsRow(w: World, step: Step, k: Key)
    requires Enabled(w, step) && step.Evaluate?
    ensures EvaluatedRow(w, Next(w, step), step, k)
  {
    hide At, Next, Enabled;
    StepOnCell(w, step, k);
  }

  /** The other quiet steps leave the ledger alone, and list only keys that have rows. */
  lemma OthersKeepLedger(w: World, step: Step)
    requires Enabled(w, step) && Quiet(w, step) && !step.TryGrant?
    ensures Next(w, step).db.ledger == w.db.ledger && Missing(Next(w, step)) <= Missing(w)
  {}

  lemma StepIsPaidFor(w: World, step: Step)
    requires Enabled(w, step) && Quiet(w, step)
    requires step.TryGrant? ==> WellCounted(At(w.db, step.k)) && ListedPending(w, step.k)
    ensures Potential(Next(w, step)) + (if Spends(w, step) then 1 else 0) <= Potential(w)
  {
    hide Next, Enabled, At, Quiet;
    if step.TryGrant? {
      AttemptIsPaidFor(w, step.k, step.io);
    } else {
      OthersKeepLedger(w, step);
      FewerMissing(Missing(Next(w, step)), Missing(w));
    }
  }

  lemma FewerMissing(s: set<Key>, t: set<Key>)
    requires s <= t
    ensures |s| <= |t|
  {
    assert t == s + (t - s);
  }

  /** Attempts that spend, from step i up to step j. */
  ghost function Spent(ws: seq<World>, steps: seq<Step>, i: nat, j: nat): nat
    requires |ws| == |steps| + 1 && i <= j <= |steps|
  {
    if i == j then 0 else Spent(ws, steps, i, j - 1) + if Spends(ws[j - 1], steps[j - 1]) then 1 else 0
  }

  ghost predicate QuietFrom(ws: seq<World>, steps: seq<Step>, i: nat, j: nat)
    requires Run(ws, steps) && j <= |steps|
  {
    forall m :: i <= m < j ==> Quiet(ws[m], steps[m])
  }

  /** Over any quiet stretch of any run, what is spent comes out of the potential. */
  lemma {:induction false} SpendingIsPaidFor(ws: seq<World>, steps: seq<Step>, i: nat, j: nat)
    requires FreshRun(ws, steps) && i <= j <= |steps| && QuietFrom(ws, steps, i, j)
    ensures Spent(ws, steps, i, j) + Potential(ws[j]) <= Potential(ws[i])
    decreases j
  {
    hide Next, Enabled, At, Potential, Quiet;
    if i < j {
      SpendingIsPaidFor(ws, steps, i, j - 1);
      var step := steps[j - 1];
      if step.TryGrant? {
        StatusFollowsAttempts(ws, steps, j - 1, step.k);
        ListedKeysArePending(ws, steps, j - 1, step.k);
      }
      StepIsPaidFor(ws[j - 1], step);
    }
  }

  lemma PotentialBounds(ws: seq<World>, steps: seq<Step>, j: nat)
    requires FreshRun(ws, steps) && j <= |steps|
    ensures |PendingKeys(ws[j])| + MAX_ATTEMPTS * |Missing(ws[j])| <= Potential(ws[j])
    ensures Potential(ws[j]) <= MAX_ATTEMPTS * (|PendingKeys(ws[j])| + |Missing(ws[j])|)
  {
    hide Next, Enabled;
    var w := ws[j];
    var budget := Budget(w.db.ledger);
    forall k | k in budget ensures 1 <= budget[k] <= MAX_ATTEMPTS {
      StatusFollowsAttempts(ws, steps, j, k);
      assert WellCounted(At(w.db, k));
    }
    SumAtLeast(budget);
    SumAtMost(budget, MAX_ATTEMPTS, |budget|);
    assert budget.Keys == PendingKeys(w);
  }

  /** From any reachable state, until something is enqueued, healed or reset, at most three
      attempts are made for each pending row, and for each listed key whose row is gone, that
      are neither online deferrals nor lost writes. Once the potential is spent the due list
      of every server is empty for good. */
  lemma RetriesAreBounded(ws: seq<World>, steps: seq<Step>, i: nat, m: nat, j: nat)
    requires FreshRun(ws, steps) && i <= m <= j <= |steps| && QuietFrom(ws, steps, i, j)
    ensures Spent(ws, steps, i, j) <= MAX_ATTEMPTS * (|PendingKeys(ws[i])| + |Missing(ws[i])|)
    ensures Spent(ws, steps, i, m) >= Potential(ws[i]) ==>
              PendingKeys(ws[j]) == {} && Missing(ws[j]) == {} && forall server, now :: DueKeys(ws[j].db, server, now) == {}
  {
    hide Next, Enabled, Potential, Quiet, Spends;
    SpendingIsPaidFor(ws, steps, i, j);
    SpendingIsPaidFor(ws, steps, i, m);
    SpendingIsPaidFor(ws, steps, m, j);
    PotentialBounds(ws, steps, i);
    PotentialBounds(ws, steps, j);
    if Spent(ws, steps, i, m) >= Potential(ws[i]) {
      forall server, now ensures DueKeys(ws[j].db, server, now) == {} {
        assert DueKeys(ws[j].db, server, now) <= PendingKeys(ws[j]);
      }
    }
  }
}
