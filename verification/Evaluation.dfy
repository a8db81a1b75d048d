/** One evaluation of one player, as a list of table writes and as its effect on every
    key. A run may stop after any of its writes: a crash or a failed statement. */
module Evaluation {
  import opened BattlepassTables

  /** What one evaluation reads from outside the tables. The signal sets are the
      player's full sets; which of them the engine fetches is Engine's business. */
  datatype Job = Job(
    server: int, account: int, tiers: seq<Tier>,
    level: int, journey: set<string>, tags: set<string>,
    awardPast: bool, autoGrant: bool)

  datatype Write =
    | Mark(k: Key)
    | Record(k: Key, status: ClaimStatus, intel: int)
    | Enqueue(k: Key)

  predicate Satisfied(t: Tier, level: int, journey: set<string>, tags: set<string>) {
    match t.signal
    case Level => level >= t.threshold
    case JourneyNode => t.signalKey in journey
    case PlayerTag => t.signalKey in tags
    case OtherSignal => false
  }

  function KeyOf(job: Job, tierKey: string): Key {
    Key(job.server, tierKey, job.account)
  }

  predicate Owns(job: Job, k: Key) {
    k.server == job.server && k.account == job.account
  }

  // ----- The writes, in the order the engine makes them -----

  /** order lists the account's earned tiers once each, in any order. */
  ghost predicate ListsEarned(order: seq<string>, db: Db, job: Job) {
    (forall i, j :: 0 <= i < j < |order| ==> order[i] != order[j])
    && forall t :: t in order <==> At(db, KeyOf(job, t)).Holds(Earned)
  }

  function RetroWrites(order: seq<string>, job: Job): seq<Write> {
    if job.autoGrant then seq(|order|, i requires 0 <= i < |order| => Enqueue(KeyOf(job, order[i]))) else []
  }

  /** battlepassUnclaimed: enabled tiers without a claim of the account. */
  function Unclaimed(tiers: seq<Tier>, claimed: set<string>): (u: seq<Tier>)
    ensures forall t :: t in u <==> t in tiers && t.enabled && t.key !in claimed
  {
    if tiers == [] then []
    else
      var t := tiers[|tiers| - 1];
      var rest := Unclaimed(tiers[..|tiers| - 1], claimed);
      if t.enabled && t.key !in claimed then rest + [t] else rest
  }

  function ClaimedTiers(db: Db, server: int, account: int): set<string> {
    set k | k in db.claims && k.server == server && k.account == account :: k.tier
  }

  function TierWrites(job: Job, seen: set<string>, t: Tier): seq<Write> {
    var k := KeyOf(job, t.key);
    if !Satisfied(t, job.level, job.journey, job.tags) then [Mark(k)]
    else if job.awardPast || t.key in seen then
      [Record(k, Earned, t.intel)] + (if job.autoGrant then [Enqueue(k)] else [])
    else [Record(k, Baseline, t.intel)]
  }

  function AllTierWrites(job: Job, seen: set<string>, tiers: seq<Tier>): seq<Write> {
    if tiers == [] then []
    else TierWrites(job, seen, tiers[0]) + AllTierWrites(job, seen, tiers[1..])
  }

  function SeenTiers(db: Db, server: int, account: int): set<string> {
    set k | k in db.seen && k.server == server && k.account == account :: k.tier
  }

  function Plan(db: Db, order: seq<string>, job: Job): seq<Write> {
    RetroWrites(order, job)
    + AllTierWrites(job, SeenTiers(db, job.server, job.account), Unclaimed(job.tiers, ClaimedTiers(db, job.server, job.account)))
  }

  function CellAfter(c: Cell, w: Write): Cell {
    match w
    case Mark(_) => c.(seen := true)
    case Record(_, status, intel) => c.(claim := WithClaim(c.claim, status, intel))
    case Enqueue(_) => c.(row := Enqueued(c.row))
  }

  function ApplyWrite(db: Db, w: Write): Db {
    Put(db, w.k, CellAfter(At(db, w.k), w))
  }

  function Apply(db: Db, writes: seq<Write>): Db {
    if writes == [] then db
    else ApplyWrite(Apply(db, writes[..|writes| - 1]), writes[|writes| - 1])
  }

  // ----- The effect on one key -----

  /** What an evaluation observes about a key. */
  datatype Sight = Foreign | Unlisted | Unmet | Met(intel: int)

  function Observe(job: Job, k: Key): Sight {
    if !Owns(job, k) then Foreign
    else
      var t := TierNamed(job.tiers, k.tier);
      if t.None? || !t.value.enabled then Unlisted
      else if Satisfied(t.value, job.level, job.journey, job.tags) then Met(t.value.intel)
      else Unmet
  }

  /** The cell after a complete evaluation, read off the cell before and the player. */
  function Evaluated(c: Cell, sight: Sight, awardPast: bool, autoGrant: bool): Cell {
    var claim := if sight.Met? then WithClaim(c.claim, if awardPast || c.seen then Earned else Baseline, sight.intel) else c.claim;
    var seen := c.seen || (sight.Unmet? && c.claim.None?);
    var enqueue := !sight.Foreign? && autoGrant && claim.Some? && claim.value.status == Earned;
    Cell(claim, seen, if enqueue then Enqueued(c.row) else c.row)
  }

  function After(job: Job, k: Key, c: Cell): Cell {
    Evaluated(c, Observe(job, k), job.awardPast, job.autoGrant)
  }

  /** c1 lies between c and the complete evaluation of c: each column still has its old
      value or already has its final one, and no row is enqueued ahead of its claim. */
  predicate Between(job: Job, k: Key, c: Cell, c1: Cell) {
    var final := After(job, k, c);
    (c1.claim == c.claim || c1.claim == final.claim)
    && (c1.seen == c.seen || c1.seen == final.seen)
    && (c1.row == c.row || (c1.row == final.row && c1.Holds(Earned)))
  }

  // ----- Every prefix of the plan lies between -----

  lemma {:induction false} TierWriteShape(job: Job, seen: set<string>, tiers: seq<Tier>, i: nat)
    requires i < |AllTierWrites(job, seen, tiers)|
    ensures
      var ws := AllTierWrites(job, seen, tiers);
      exists t :: t in tiers && ws[i] in TierWrites(job, seen, t)
        && (ws[i].Enqueue? ==> 0 < i && ws[i - 1] == Record(KeyOf(job, t.key), Earned, t.intel))
  {
    var ws, first, rest := AllTierWrites(job, seen, tiers), TierWrites(job, seen, tiers[0]), AllTierWrites(job, seen, tiers[1..]);
    if i < |first| {
      assert ws[i] == first[i] && tiers[0] in tiers;
    } else {
      var j := i - |first|;
      TierWriteShape(job, seen, tiers[1..], j);
      var t :| t in tiers[1..] && rest[j] in TierWrites(job, seen, t)
        && (rest[j].Enqueue? ==> 0 < j && rest[j - 1] == Record(KeyOf(job, t.key), Earned, t.intel));
      assert ws[i] == rest[j] && t in tiers;
    }
  }

  lemma ClaimedTierKnown(db: Db, job: Job, tier: string)
    ensures tier in ClaimedTiers(db, job.server, job.account) <==> KeyOf(job, tier) in db.claims
    ensures tier in SeenTiers(db, job.server, job.account) <==> KeyOf(job, tier) in db.seen
  {}

  /** What a planned write says about the key it goes to. */
  predicate Licensed(db: Db, job: Job, w: Write) {
    var c, sight := At(db, w.k), Observe(job, w.k);
    Owns(job, w.k) &&
    match w
    case Mark(_) => c.claim.None? && sight == Unmet
    case Record(_, status, intel) =>
      c.claim.None? && sight == Met(intel) && (status == if job.awardPast || c.seen then Earned else Baseline)
    case Enqueue(_) =>
      job.autoGrant && (c.Holds(Earned) || (c.claim.None? && sight.Met? && (job.awardPast || c.seen)))
  }

  lemma TierWriteLicensed(db: Db, job: Job, t: Tier, w: Write)
    requires DistinctKeys(job.tiers) && t in job.tiers && t.enabled && KeyOf(job, t.key) !in db.claims
    requires w in TierWrites(job, SeenTiers(db, job.server, job.account), t)
    ensures w.k == KeyOf(job, t.key) && Licensed(db, job, w)
  {
    TierIsNamed(job.tiers, t);
    ClaimedTierKnown(db, job, t.key);
  }

  lemma RetroWriteLicensed(db: Db, order: seq<string>, job: Job, i: nat)
    requires ListsEarned(order, db, job) && i < |RetroWrites(order, job)|
    ensures
      var w := RetroWrites(order, job)[i];
      Licensed(db, job, w) && At(db, w.k).Holds(Earned)
  {
    hide At;
    assert order[i] in order;
  }

  lemma LaterWriteLicensed(db: Db, job: Job, i: nat)
    requires DistinctKeys(job.tiers)
    requires i < |LaterWrites(db, job)|
    ensures Licensed(db, job, LaterWrites(db, job)[i])
    ensures
      var ws := LaterWrites(db, job);
      ws[i].Enqueue? ==> 0 < i && ws[i - 1].Record? && ws[i - 1].k == ws[i].k && ws[i - 1].status == Earned
  {
    hide At, Licensed;
    var ws, seen := LaterWrites(db, job), SeenTiers(db, job.server, job.account);
    var tiers := Unclaimed(job.tiers, ClaimedTiers(db, job.server, job.account));
    TierWriteShape(job, seen, tiers, i);
    var t :| t in tiers && ws[i] in TierWrites(job, seen, t)
      && (ws[i].Enqueue? ==> 0 < i && ws[i - 1] == Record(KeyOf(job, t.key), Earned, t.intel));
    ClaimedTierKnown(db, job, t.key);
    TierWriteLicensed(db, job, t, ws[i]);
  }

  /** The writes for the unclaimed tiers, after the retroactive ones. */
  function LaterWrites(db: Db, job: Job): seq<Write> {
    AllTierWrites(job, SeenTiers(db, job.server, job.account), Unclaimed(job.tiers, ClaimedTiers(db, job.server, job.account)))
  }

  lemma PlannedWriteLicensed(db: Db, order: seq<string>, job: Job, i: nat)
    requires DistinctKeys(job.tiers) && ListsEarned(order, db, job)
    requires i < |Plan(db, order, job)|
    ensures Licensed(db, job, Plan(db, order, job)[i])
    ensures
      var ws := Plan(db, order, job);
      ws[i].Enqueue? && !At(db, ws[i].k).Holds(Earned) ==>
        0 < i && ws[i - 1].Record? && ws[i - 1].k == ws[i].k && ws[i - 1].status == Earned
  {
    hide At, Licensed, AllTierWrites, RetroWrites, SeenTiers, Unclaimed, ClaimedTiers;
    var retro := RetroWrites(order, job);
    assert Plan(db, order, job) == retro + LaterWrites(db, job);
    if i < |retro| {
      RetroWriteLicensed(db, order, job, i);
    } else {
      LaterWriteLicensed(db, job, i - |retro|);
    }
  }

  lemma LicensedWriteStaysBetween(db: Db, job: Job, w: Write, c: Cell)
    requires Licensed(db, job, w) && Between(job, w.k, At(db, w.k), c)
    requires w.Enqueue? ==> At(db, w.k).Holds(Earned) || c.claim.Some?
    ensures Between(job, w.k, At(db, w.k), CellAfter(c, w))
  {}

  ghost predicate AllBetween(job: Job, db: Db, db1: Db) {
    db1.tiers == db.tiers && forall k :: Between(job, k, At(db, k), At(db1, k))
  }

  lemma OneMoreWrite(job: Job, db: Db, db0: Db, w: Write)
    requires AllBetween(job, db, db0) && Licensed(db, job, w)
    requires w.Enqueue? ==> At(db, w.k).Holds(Earned) || At(db0, w.k).claim.Some?
    ensures AllBetween(job, db, ApplyWrite(db0, w))
  {
    forall k ensures Between(job, k, At(db, k), At(ApplyWrite(db0, w), k)) {
      assert Between(job, k, At(db, k), At(db0, k));
      PutChangesOneCell(db0, w.k, CellAfter(At(db0, w.k), w));
      if k == w.k { LicensedWriteStaysBetween(db, job, w, At(db0, k)); }
    }
  }

  /** Every write is licensed by the starting tables, and a row that is enqueued for a
      claim not yet earned comes right after that claim. */
  ghost predicate LicensedAll(db: Db, job: Job, ws: seq<Write>) {
    forall i :: 0 <= i < |ws| ==> Licensed(db, job, ws[i]) && RecordedFirst(db, ws, i)
  }

  predicate RecordedFirst(db: Db, ws: seq<Write>, i: nat)
    requires i < |ws|
  {
    ws[i].Enqueue? && !At(db, ws[i].k).Holds(Earned) ==> 0 < i && ws[i - 1].Record? && ws[i - 1].k == ws[i].k
  }

  lemma {:induction false} LicensedPrefixBetween(db: Db, job: Job, ws: seq<Write>, n: nat)
    requires LicensedAll(db, job, ws) && n <= |ws|
    ensures AllBetween(job, db, Apply(db, ws[..n]))
  {
    if n > 0 {
      LicensedPrefixBetween(db, job, ws, n - 1);
      var w := ws[n - 1];
      assert Licensed(db, job, w) && RecordedFirst(db, ws, n - 1);
      if w.Enqueue? && !At(db, w.k).Holds(Earned) {
        RecordedBefore(db, ws, n - 1);
      }
      OneMoreWrite(job, db, Apply(db, ws[..n - 1]), w);
      assert ws[..n][..n - 1] == ws[..n - 1];
    }
  }

  lemma RecordedBefore(db: Db, ws: seq<Write>, n: nat)
    requires 0 < n < |ws| && ws[n - 1].Record? && ws[n - 1].k == ws[n].k
    ensures At(Apply(db, ws[..n]), ws[n].k).claim.Some?
  {}

  /** Whatever prefix of its writes an evaluation completes, every cell lies between. */
  lemma PrefixBetween(db: Db, order: seq<string>, job: Job, n: nat)
    requires DistinctKeys(job.tiers) && ListsEarned(order, db, job)
    requires n <= |Plan(db, order, job)|
    ensures AllBetween(job, db, Apply(db, Plan(db, order, job)[..n]))
  {
    var ws := Plan(db, order, job);
    forall i | 0 <= i < |ws| ensures Licensed(db, job, ws[i]) && RecordedFirst(db, ws, i) {
      PlannedWriteLicensed(db, order, job, i);
    }
    LicensedPrefixBetween(db, job, ws, n);
  }

  // ----- The whole plan reaches the final cells -----

  /** Inserts never undo one another. */
  predicate Done(db: Db, w: Write) {
    match w
    case Mark(k) => k in db.seen
    case Record(k, _, _) => k in db.claims
    case Enqueue(k) => k in db.ledger
  }

  lemma {:induction false} WritesGetDone(db: Db, writes: seq<Write>, w: Write)
    requires w in writes
    ensures Done(Apply(db, writes), w)
  {
    var front, last := writes[..|writes| - 1], writes[|writes| - 1];
    assert writes == front + [last];
    if w in front { WritesGetDone(db, front, w); }
  }

  lemma {:induction false} TierWritesPlanned(job: Job, seen: set<string>, tiers: seq<Tier>, t: Tier, w: Write)
    requires t in tiers && w in TierWrites(job, seen, t)
    ensures w in AllTierWrites(job, seen, tiers)
  {
    if t != tiers[0] { TierWritesPlanned(job, seen, tiers[1..], t, w); }
  }

  lemma PlanReaches(db: Db, order: seq<string>, job: Job, k: Key)
    requires DistinctKeys(job.tiers) && ListsEarned(order, db, job)
    ensures At(Apply(db, Plan(db, order, job)), k) == After(job, k, At(db, k))
  {
    var ws := Plan(db, order, job);
    assert ws[..|ws|] == ws;
    PrefixBetween(db, order, job, |ws|);
    var db1 := Apply(db, ws);
    assert Between(job, k, At(db, k), At(db1, k));
    if Owns(job, k) {
      assert k == KeyOf(job, k.tier);
      var c := At(db, k);
      if c.Holds(Earned) && job.autoGrant {
        var i :| 0 <= i < |order| && order[i] == k.tier;
        assert RetroWrites(order, job)[i] == Enqueue(k);
        assert ws[i] == Enqueue(k);
        WritesGetDone(db, ws, Enqueue(k));
      }
      var t := TierNamed(job.tiers, k.tier);
      if c.claim.None? && t.Some? && t.value.enabled {
        ClaimedTierKnown(db, job, k.tier);
        var seen := SeenTiers(db, job.server, job.account);
        var tiers := Unclaimed(job.tiers, ClaimedTiers(db, job.server, job.account));
        forall w | w in TierWrites(job, seen, t.value) ensures Done(db1, w) {
          TierWritesPlanned(job, seen, tiers, t.value, w);
          WritesGetDone(db, ws, w);
        }
        TierWritesOutcome(db, db1, job, t.value);
      }
    }
  }

  lemma TierWritesOutcome(db: Db, db1: Db, job: Job, t: Tier)
    requires forall w :: w in TierWrites(job, SeenTiers(db, job.server, job.account), t) ==> Done(db1, w)
    ensures
      var k := KeyOf(job, t.key);
      if Satisfied(t, job.level, job.journey, job.tags)
      then k in db1.claims && (job.autoGrant && (job.awardPast || k in db.seen) ==> k in db1.ledger)
      else k in db1.seen
  {
    ClaimedTierKnown(db, job, t.key);
    var ws := TierWrites(job, SeenTiers(db, job.server, job.account), t);
    assert Done(db1, ws[0]);
    if |ws| > 1 { assert Done(db1, ws[1]); }
  }
}
