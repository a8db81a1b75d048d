/** What the delivery loop may have in hand: a listed key's row is pending or gone, so no
    attempt of any run meets a delivered row, and a delivered row is final. */
module Listing {
  import opened BattlepassTables
  import opened Protocol

  predicate ListedPending(w: World, k: Key) {
    k in w.due && At(w.db, k).row.Some? ==> At(w.db, k).RowIs(Pending)
  }

  lemma DueIsPending(db: Db, server: int, now: nat, k: Key)
    requires k in DueKeys(db, server, now)
    ensures At(db, k).RowIs(Pending)
  {}

  lemma StepKeepsListing(w: World, step: Step, k: Key)
    requires Enabled(w, step) && ListedPending(w, k)
    ensures ListedPending(Next(w, step), k)
  {
    hide At, Enabled, Catalogued, Heal, DemoteDb, PurgeDb, ManualClaims;
    StepOnCell(w, step, k);
    if step.ListDue? && k in DueKeys(w.db, step.server, step.now) { DueIsPending(w.db, step.server, step.now, k); }
  }

  /** In every reachable state a listed key has no delivered and no exhausted row. */
  lemma {:induction false} ListedKeysArePending(ws: seq<World>, steps: seq<Step>, j: nat, k: Key)
    requires FreshRun(ws, steps) && j <= |steps|
    ensures ListedPending(ws[j], k)
  {
    hide At, Next, Enabled;
    if j > 0 {
      ListedKeysArePending(ws, steps, j - 1, k);
      StepKeepsListing(ws[j - 1], steps[j - 1], k);
    }
  }

  lemma StepKeepsSeal(w: World, step: Step, k: Key)
    requires Enabled(w, step) && ListedPending(w, k) && At(w.db, k).RowIs(Sealed)
    ensures At(Next(w, step).db, k).RowIs(Sealed)
  {
    hide At, Next, Catalogued;
    StepOnCell(w, step, k);
  }

  /** "Granted" is terminal in the ledger on every run: whatever fails, and whatever
      operators do, a delivered row stays delivered. */
  lemma {:induction false} SealedForever(ws: seq<World>, steps: seq<Step>, i: nat, j: nat, k: Key)
    requires FreshRun(ws, steps) && i <= j <= |steps|
    requires At(ws[i].db, k).RowIs(Sealed)
    ensures At(ws[j].db, k).RowIs(Sealed)
  {
    hide At, Next, Enabled;
    if i < j {
      SealedForever(ws, steps, i, j - 1, k);
      ListedKeysArePending(ws, steps, j - 1, k);
      StepKeepsSeal(ws[j - 1], steps[j - 1], k);
    }
  }
}
