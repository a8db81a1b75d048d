/** The grant ledger over whole runs: what stands behind a row, what its attempt count
    means, which rows are due, and why healing finds nothing to heal. */
module LedgerLaws {
  import opened Options
  import opened BattlepassTables
  import opened Evaluation
  import opened Delivery
  import opened Protocol
  import opened Listing
  import opened Scenarios
  import Timestamps

  // ----- Claims and ledger agree -----

  predicate Live(c: Cell) {
    c.Holds(Earned) || c.Holds(Granted)
  }

  predicate Agrees(c: Cell) {
    c.row.Some? && Unsettled(c.row.value) ==> Live(c)
  }

  /** A read of the settled check fails and the failure is recorded, for a key with no
      live claim behind it. */
  predicate FailsUnclaimed(c: Cell, io: AttemptIo) {
    (io.statusError.Some? || io.claimError.Some?) && !io.lostFailure && !Live(c)
  }

  lemma StepKeepsAgreement(w: World, step: Step, k: Key)
    requires Enabled(w, step) && Agrees(At(w.db, k))
    requires step.TryGrant? && step.k == k ==> !FailsUnclaimed(At(w.db, k), step.io)
    ensures Agrees(At(Next(w, step).db, k))
  {
    hide At, Next, Enabled, Catalogued;
    StepOnCell(w, step, k);
  }

  /** In every reachable state a pending or exhausted row has an earned or granted claim
      behind it, unless an attempt of that key has failed to read, after its claim was
      purged, that there is nothing to deliver. */
  lemma {:induction false} UnsettledRowsHaveLiveClaims(ws: seq<World>, steps: seq<Step>, j: nat, k: Key)
    requires FreshRun(ws, steps) && j <= |steps|
    requires forall m :: 0 <= m < j && steps[m].TryGrant? && steps[m].k == k ==> !FailsUnclaimed(At(ws[m].db, k), steps[m].io)
    ensures Agrees(At(ws[j].db, k))
  {
    hide At, Next, Enabled, Catalogued;
    FreshCell(k);
    if j > 0 {
      UnsettledRowsHaveLiveClaims(ws, steps, j - 1, k);
      StepKeepsAgreement(ws[j - 1], steps[j - 1], k);
    }
  }

  /** Such a run exists: the tier is listed, its claim purged, and the attempt's status
      read fails. */
  lemma FailedReadBreaksAgreement(k: Key, tier: Tier, job: Job, now: nat, io: AttemptIo) returns (ws: seq<World>, steps: seq<Step>)
    requires ForKey(job, k, tier) && Names(k, tier) && Meets(job, tier) && job.awardPast && job.autoGrant
    requires io.statusError.Some? && !io.lostFailure
    ensures FreshRun(ws, steps) && |steps| == 5 && steps[4] == TryGrant(k, io)
    ensures ws[4] == World(Sole(k, tier, BLANK), {k})
    ensures Agrees(At(ws[4].db, k)) && !Agrees(At(ws[5].db, k))
  {
    hide Next, Enabled, Sole, At;
    var c := Enlisted(tier);
    var gone, broken := PurgeCell(c, 3), AttemptCell(BLANK, Some(tier), io);
    assert gone == BLANK;
    ListingSole(k, tier, c, now);
    Purging(k, tier, c, {k}, 3);
    Attempting(k, tier, BLANK, io);
    SoleCell(k, tier, BLANK);
    SoleCell(k, tier, broken);
    ws, steps := Enlisting(k, tier, job);
    Extended(ws, steps, ListDue(k.server, now), World(Sole(k, tier, c), {k}));
    ws, steps := ws + [World(Sole(k, tier, c), {k})], steps + [ListDue(k.server, now)];
    Extended(ws, steps, Purge(k.server, k.account, 3), World(Sole(k, tier, BLANK), {k}));
    ws, steps := ws + [World(Sole(k, tier, BLANK), {k})], steps + [Purge(k.server, k.account, 3)];
    Extended(ws, steps, TryGrant(k, io), World(Sole(k, tier, broken), {}));
    ws, steps := ws + [World(Sole(k, tier, broken), {})], steps + [TryGrant(k, io)];
  }

  /** Exactly which attempts break the agreement: a read fails, the failure is recorded,
      and there is no live claim; an online error on a sealed row is the harmless case. */
  lemma AgreementBrokenOnlyByFailedReads(c: Cell, tier: Option<Tier>, io: AttemptIo)
    requires Agrees(c)
    ensures Agrees(AttemptCell(c, tier, io)) <==>
            !( (io.statusError.Some? || (io.claimError.Some? && !c.RowIs(Sealed)))
               && !io.lostFailure && !Live(c)
               && !(c.RowIs(Sealed) && io.statusError.Some? && io.statusError.value.online) )
  {}

  // ----- Attempt counts and statuses -----

  predicate WellCounted(c: Cell) {
    (c.RowIs(Pending) ==> c.row.value.attempts < MAX_ATTEMPTS)
    && (c.RowIs(Exhausted) ==> c.row.value.attempts >= MAX_ATTEMPTS)
  }

  lemma StepKeepsCounts(w: World, step: Step, k: Key)
    requires Enabled(w, step) && WellCounted(At(w.db, k))
    ensures WellCounted(At(Next(w, step).db, k))
  {
    hide At, Next, Enabled, Catalogued;
    StepOnCell(w, step, k);
  }

  /** Whatever fails, a pending row has attempts left and an exhausted one has none. */
  lemma {:induction false} StatusFollowsAttempts(ws: seq<World>, steps: seq<Step>, j: nat, k: Key)
    requires FreshRun(ws, steps) && j <= |steps|
    ensures WellCounted(At(ws[j].db, k))
  {
    hide At, Next, Enabled, Catalogued;
    FreshCell(k);
    if j > 0 {
      StatusFollowsAttempts(ws, steps, j - 1, k);
      StepKeepsCounts(ws[j - 1], steps[j - 1], k);
    }
  }

  /** The attempt is refused for a reason other than an online player, and recorded. */
  predicate CountedFailure(w: World, step: Step, k: Key) {
    step.TryGrant? && step.k == k && !step.io.lostFailure
    && var verdict := Decide(At(w.db, k), Catalogued(w.db, k), step.io);
       verdict.Refused? && !verdict.cause.online
  }

  predicate HealsRow(w: World, step: Step, k: Key) {
    step.HealLedger? && At(w.db, k).RowIs(Exhausted) && CarriesMarker(At(w.db, k).row.value.lastError)
  }

  /** Counted failures of k since its row was created or healed. */
  function FailuresSince(ws: seq<World>, steps: seq<Step>, j: nat, k: Key): nat
    requires |ws| == |steps| + 1 && j <= |steps|
  {
    if j == 0 || At(ws[j].db, k).row.None? || HealsRow(ws[j - 1], steps[j - 1], k) then 0
    else FailuresSince(ws, steps, j - 1, k) + if CountedFailure(ws[j - 1], steps[j - 1], k) then 1 else 0
  }

  /** The attempts column counts exactly those failures, on every unsettled row. */
  lemma {:induction false} AttemptsCountFailures(ws: seq<World>, steps: seq<Step>, j: nat, k: Key)
    requires FreshRun(ws, steps) && j <= |steps|
    requires At(ws[j].db, k).row.Some? && Unsettled(At(ws[j].db, k).row.value)
    ensures At(ws[j].db, k).row.value.attempts == FailuresSince(ws, steps, j, k)
  {
    hide At, Next, Enabled, Catalogued;
    FreshCell(k);
    assert j > 0;
    var c := At(ws[j - 1].db, k);
    if c.row.Some? && Unsettled(c.row.value) { AttemptsCountFailures(ws, steps, j - 1, k); }
    ListedKeysArePending(ws, steps, j - 1, k);
    AttemptsAfterStep(ws[j - 1], steps[j - 1], k);
  }

  lemma AttemptsAfterAttempt(c: Cell, tier: Option<Tier>, io: AttemptIo)
    requires !c.RowIs(Sealed)
    ensures
      var c1, verdict := AttemptCell(c, tier, io), Decide(c, tier, io);
      c1.row.Some? && Unsettled(c1.row.value) ==>
        c1.row.value.attempts == (if c.row.Some? then c.row.value.attempts else 0)
                                 + if verdict.Refused? && !verdict.cause.online && !io.lostFailure then 1 else 0
  {}

  lemma AttemptsAfterStep(w: World, step: Step, k: Key)
    requires Enabled(w, step) && ListedPending(w, k)
    requires At(Next(w, step).db, k).row.Some? && Unsettled(At(Next(w, step).db, k).row.value)
    ensures
      var c, c1 := At(w.db, k), At(Next(w, step).db, k);
      var counted := if CountedFailure(w, step, k) then 1 else 0;
      c1.row.value.attempts ==
        if HealsRow(w, step, k) then 0 else if c.row.Some? then c.row.value.attempts + counted else counted
    ensures At(w.db, k).row.Some? ==> Unsettled(At(w.db, k).row.value)
  {
    hide At, Next, Catalogued, AttemptCell, Decide, CarriesMarker;
    StepOnCell(w, step, k);
    if step.TryGrant? && step.k == k { AttemptsAfterAttempt(At(w.db, k), Catalogued(w.db, k), step.io); }
  }

  /** An online deferral leaves status and attempts alone, however often it happens. */
  lemma OnlineDeferralNeverExhausts(c: Cell, tier: Option<Tier>, io: AttemptIo)
    requires Decide(c, tier, io).Refused? && Decide(c, tier, io).cause.online
    ensures
      var c1 := AttemptCell(c, tier, io);
      c1.claim == c.claim
      && (c.row.Some? ==> c1.row.Some? && c1.row.value.status == c.row.value.status && c1.row.value.attempts == c.row.value.attempts)
      && (c.row.None? && !io.lostFailure ==> c1.RowIs(Pending) && c1.row.value.attempts == 0)
  {}

  // ----- The due list -----

  predicate Timed(c: Cell, now: nat) {
    c.row.Some? && c.row.value.nextAttemptAt == Timestamps.Format(now)
  }

  /** Every row of the ledger has no time, or the text of some instant. */
  ghost predicate HasTime(c: Cell) {
    c.row.Some? && c.row.value.nextAttemptAt != "" ==> exists t: nat :: Timed(c, t)
  }

  lemma RefusalHasTime(c: Cell, cause: Error, now: nat)
    ensures HasTime(c.(row := RecordRefusal(c.row, cause, now)))
  {
    var c1 := c.(row := RecordRefusal(c.row, cause, now));
    var t := now + if cause.online then ONLINE_BACKOFF else RETRY_BACKOFF;
    assert c1.row.value.nextAttemptAt != "" ==> Timed(c1, t);
  }

  lemma SameTime(c: Cell, c1: Cell)
    requires HasTime(c) && c1.row.Some? && c.row.Some? && c1.row.value.nextAttemptAt == c.row.value.nextAttemptAt
    ensures HasTime(c1)
  {
    if c.row.value.nextAttemptAt != "" {
      var t: nat :| Timed(c, t);
      assert Timed(c1, t);
    }
  }

  lemma AttemptKeepsTimes(c: Cell, tier: Option<Tier>, io: AttemptIo)
    requires HasTime(c)
    ensures HasTime(AttemptCell(c, tier, io))
  {
    var verdict := Decide(c, tier, io);
    if verdict.Refused? && !io.lostFailure {
      RefusalHasTime(c, verdict.cause, io.now);
    } else if AttemptCell(c, tier, io).row == c.row {
      if c.row.Some? { SameTime(c, AttemptCell(c, tier, io)); }
    }
  }

  lemma StepKeepsTimes(w: World, step: Step, k: Key)
    requires Enabled(w, step) && HasTime(At(w.db, k))
    ensures HasTime(At(Next(w, step).db, k))
  {
    hide At, Next, Enabled, Catalogued;
    StepOnCell(w, step, k);
    var c, c1 := At(w.db, k), At(Next(w, step).db, k);
    if step.TryGrant? && step.k == k {
      AttemptKeepsTimes(c, Catalogued(w.db, k), step.io);
    } else if c1.row.Some? && c1.row.value.nextAttemptAt != "" {
      SameTime(c, c1);
    }
  }

  lemma {:induction false} RowsHaveTimes(ws: seq<World>, steps: seq<Step>, j: nat, k: Key)
    requires FreshRun(ws, steps) && j <= |steps|
    ensures HasTime(At(ws[j].db, k))
  {
    hide At, Next, Enabled, Catalogued;
    FreshCell(k);
    if j > 0 {
      RowsHaveTimes(ws, steps, j - 1, k);
      StepKeepsTimes(ws[j - 1], steps[j - 1], k);
    }
  }

  /** In every reachable state the due list is exactly the pending rows whose time has
      come, although the query compares text; its attempts filter is redundant. */
  lemma DueListIsExact(ws: seq<World>, steps: seq<Step>, j: nat, k: Key, now: nat)
    requires FreshRun(ws, steps) && j <= |steps|
    requires now < Timestamps.EndOfYear9999()
    requires forall t: nat :: Timed(At(ws[j].db, k), t) ==> t < Timestamps.EndOfYear9999()
    ensures k in DueKeys(ws[j].db, k.server, now) <==>
            At(ws[j].db, k).RowIs(Pending)
            && (At(ws[j].db, k).row.value.nextAttemptAt == "" || exists t: nat :: Timed(At(ws[j].db, k), t) && t <= now)
  {
    var c := At(ws[j].db, k);
    StatusFollowsAttempts(ws, steps, j, k);
    RowsHaveTimes(ws, steps, j, k);
    if c.RowIs(Pending) {
      if c.row.value.nextAttemptAt == "" {
        Timestamps.BlankComesFirst(now);
      } else {
        forall t: nat | Timed(c, t)
          ensures Timestamps.TextAtMost(c.row.value.nextAttemptAt, Timestamps.Format(now)) <==> t <= now
        {
          Timestamps.TextOrderIsTimeOrder(t, now);
        }
        var t: nat :| Timed(c, t);
      }
    }
  }

  /** A recorded failure that leaves the row pending keeps it off every due list for a day,
      or for five minutes when the player was online, and no longer. */
  lemma BackoffIsWaitedOut(c: Cell, tier: Option<Tier>, io: AttemptIo, now: nat)
    requires Decide(c, tier, io).Refused? && !io.lostFailure
    requires io.now + 86_400 < Timestamps.EndOfYear9999() && now < Timestamps.EndOfYear9999()
    ensures
      var c1 := AttemptCell(c, tier, io);
      c1.row.Some? && (WellCounted(c) && c1.RowIs(Pending) ==>
        (Due(c1.row.value, now) <==> now >= io.now + if Decide(c, tier, io).cause.online then 300 else 86_400))
  {
    hide Timestamps.Format, Timestamps.TextAtMost, Timestamps.EndOfYear9999;
    Timestamps.TextOrderIsTimeOrder(io.now + 300, now);
    Timestamps.TextOrderIsTimeOrder(io.now + 86_400, now);
  }

  // ----- Healing -----

  /** Only the online error's message carries the marker the heal looks for. */
  predicate HonestError(e: Option<Error>) {
    e.Some? && CarriesMarker(e.value.message) ==> e.value.online
  }

  predicate Honest(step: Step) {
    step.TryGrant? ==>
      HonestError(step.io.statusError) && HonestError(step.io.claimError) && HonestError(step.io.tierError)
      && HonestError(step.io.targetError) && HonestError(step.io.awardError)
  }

  predicate NothingToHeal(c: Cell) {
    c.RowIs(Exhausted) ==> !CarriesMarker(c.row.value.lastError)
  }

  lemma NotFoundIsUnmarked()
    ensures !CarriesMarker(NOT_FOUND.message)
  {}

  lemma StepLeavesNothingToHeal(w: World, step: Step, k: Key)
    requires Enabled(w, step) && Honest(step)
    requires NothingToHeal(At(w.db, k)) && ListedPending(w, k)
    ensures NothingToHeal(At(Next(w, step).db, k))
  {
    hide At, Next, Catalogued, CarriesMarker;
    StepOnCell(w, step, k);
    NotFoundIsUnmarked();
  }

  lemma {:induction false} NothingToHealOnRuns(ws: seq<World>, steps: seq<Step>, j: nat, k: Key)
    requires FreshRun(ws, steps) && j <= |steps|
    requires forall m :: 0 <= m < j ==> Honest(steps[m])
    ensures NothingToHeal(At(ws[j].db, k))
  {
    hide At, Next, Enabled, Catalogued;
    FreshCell(k);
    if j > 0 {
      NothingToHealOnRuns(ws, steps, j - 1, k);
      ListedKeysArePending(ws, steps, j - 1, k);
      StepLeavesNothingToHeal(ws[j - 1], steps[j - 1], k);
    }
  }

  /** Healing changes a ledger exactly when some exhausted row carries the marker, and
      changes nothing the second time. */
  lemma HealIsIdempotent(db: Db)
    ensures Heal(db) == db <==> forall k :: NothingToHeal(At(db, k))
    ensures Heal(Heal(db)) == Heal(db)
  {
    var healed := Heal(db);
    if forall k :: NothingToHeal(At(db, k)) {
      forall k | k in db.ledger ensures healed.ledger[k] == db.ledger[k] { assert NothingToHeal(At(db, k)); }
      assert healed.ledger == db.ledger;
    } else {
      var k :| !NothingToHeal(At(db, k));
      assert healed.ledger[k] != db.ledger[k];
    }
    forall k | k in healed.ledger ensures Healed(healed.ledger[k]) == healed.ledger[k] {}
    assert Heal(healed).ledger == healed.ledger;
  }

  /** Under the current failure routing no reachable state has anything to heal. */
  lemma HealIsIdleOnEveryRun(ws: seq<World>, steps: seq<Step>, j: nat)
    requires FreshRun(ws, steps) && j <= |steps|
    requires forall m :: 0 <= m < j ==> Honest(steps[m])
    ensures Heal(ws[j].db) == ws[j].db
  {
    forall k ensures NothingToHeal(At(ws[j].db, k)) { NothingToHealOnRuns(ws, steps, j, k); }
    HealIsIdempotent(ws[j].db);
  }
}
