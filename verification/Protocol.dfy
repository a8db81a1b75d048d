/** The award and delivery protocol as a state machine: evaluations, the delivery loop,
    and everything an operator can do, in any order and with any faults. */
module Protocol {
  import opened Options
  import opened BattlepassTables
  import opened Evaluation
  import opened Ticks
  import opened Delivery

  /** The tables, and the keys the delivery loop has listed but not attempted yet. */
  datatype World = World(db: Db, due: set<Key>)

  datatype Step =
    | Evaluate(run: PlayerRun)
    | ListDue(server: int, now: nat)
    | TryGrant(k: Key, io: AttemptIo)
    | GrantTier(k: Key, manual: ManualIo)
    | GrantAccount(server: int, account: int, manual: ManualIo)
    | Demote(server: int, account: int, done: nat)   // done: statements completed, of 2
    | Purge(server: int, account: int, done: nat)    // done: statements completed, of 3
    | HealLedger
    | EditCatalogue(server: int, tiers: seq<Tier>)

  ghost predicate Enabled(w: World, step: Step) {
    match step
    case Evaluate(run) => CanRun(w.db, run)
    case TryGrant(k, _) => k in w.due && k.tier != ""   // a row without a tier key is refused unrecorded
    case EditCatalogue(_, tiers) => DistinctKeys(tiers)
    case _ => true
  }

  function ManualClaims(db: Db, server: int, account: int, io: ManualIo): Db {
    db.(claims := map k | k in db.claims ::
      if k.server == server && k.account == account then ManualCell(At(db, k), io).claim.value else db.claims[k])
  }

  function DemoteDb(db: Db, server: int, account: int, done: nat): Db {
    var one := if done >= 1 then DeleteUnsettled(db, server, account) else db;
    if done >= 2 then DemoteEarned(one, server, account) else one
  }

  function PurgeDb(db: Db, server: int, account: int, done: nat): Db {
    var one := if done >= 1 then DeleteUnsettled(db, server, account) else db;
    var two := if done >= 2 then PurgeClaims(one, server, account) else one;
    if done >= 3 then PurgeSeen(two, server, account) else two
  }

  ghost function Next(w: World, step: Step): World
    requires Enabled(w, step)
  {
    match step
    case Evaluate(run) => w.(db := Outcome(w.db, run))
    case ListDue(server, now) => w.(due := (set k | k in w.due && k.server != server) + DueKeys(w.db, server, now))
    case TryGrant(k, io) => World(Attempt(w.db, k, io), w.due - {k})
    case GrantTier(k, io) => w.(db := Put(w.db, k, ManualCell(At(w.db, k), io)))
    case GrantAccount(server, account, io) => w.(db := ManualClaims(w.db, server, account, io))
    case Demote(server, account, done) => w.(db := DemoteDb(w.db, server, account, done))
    case Purge(server, account, done) => w.(db := PurgeDb(w.db, server, account, done))
    case HealLedger => w.(db := Heal(w.db))
    case EditCatalogue(server, tiers) => w.(db := w.db.(tiers := w.db.tiers[server := tiers]))
  }

  /** A run: any sequence of enabled steps from any world. */
  ghost predicate Run(ws: seq<World>, steps: seq<Step>) {
    |ws| == |steps| + 1
    && forall i :: 0 <= i < |steps| ==> Enabled(ws[i], steps[i]) && ws[i + 1] == Next(ws[i], steps[i])
  }

  const EMPTY := World(Db(map[], map[], {}, map[]), {})

  ghost predicate FreshRun(ws: seq<World>, steps: seq<Step>) {
    Run(ws, steps) && ws[0] == EMPTY
  }

  lemma FreshCell(k: Key)
    ensures At(EMPTY.db, k) == Cell(None, false, None)
  {}

  // ----- What a step does to one key -----

  function DemoteCell(c: Cell, done: nat): Cell {
    Cell(if done >= 2 then OnClaim(c.claim, Demoted) else c.claim,
         c.seen,
         if done >= 1 && c.row.Some? && Unsettled(c.row.value) then None else c.row)
  }

  function PurgeCell(c: Cell, done: nat): Cell {
    Cell(if done >= 2 then None else c.claim,
         c.seen && done < 3,
         if done >= 1 && c.row.Some? && Unsettled(c.row.value) then None else c.row)
  }

  ghost predicate CellStep(db: Db, step: Step, k: Key, c: Cell, c1: Cell) {
    match step
    case Evaluate(run) => Between(run.job, k, c, c1)
    case TryGrant(j, io) => c1 == if j == k then AttemptCell(c, Catalogued(db, k), io) else c
    case GrantTier(j, io) => c1 == if j == k then ManualCell(c, io) else c
    case GrantAccount(server, account, io) => c1 == if k.server == server && k.account == account then ManualCell(c, io) else c
    case Demote(server, account, done) => c1 == if InScope(k, server, account) then DemoteCell(c, done) else c
    case Purge(server, account, done) => c1 == if InScope(k, server, account) then PurgeCell(c, done) else c
    case HealLedger => c1 == c.(row := if c.row.Some? then Some(Healed(c.row.value)) else None)
    case _ => c1 == c
  }

  /** Every step acts key by key. */
  lemma StepOnCell(w: World, step: Step, k: Key)
    requires Enabled(w, step)
    ensures CellStep(w.db, step, k, At(w.db, k), At(Next(w, step).db, k))
  {
    match step
    case Evaluate(run) => PrefixBetween(w.db, run.stop.order, run.job, run.stop.writes);
    case TryGrant(j, io) => PutChangesOneCell(w.db, j, AttemptCell(At(w.db, j), Catalogued(w.db, j), io));
    case GrantTier(j, io) => PutChangesOneCell(w.db, j, ManualCell(At(w.db, j), io));
    case _ =>
  }

  /** A run, as one key sees it. */
  ghost predicate CellRun(ws: seq<World>, steps: seq<Step>, k: Key) {
    |ws| == |steps| + 1
    && forall i :: 0 <= i < |steps| ==> CellStep(ws[i].db, steps[i], k, At(ws[i].db, k), At(ws[i + 1].db, k))
  }

  lemma RunOnCell(ws: seq<World>, steps: seq<Step>, k: Key)
    requires Run(ws, steps)
    ensures CellRun(ws, steps, k)
  {
    forall i | 0 <= i < |steps| ensures CellStep(ws[i].db, steps[i], k, At(ws[i].db, k), At(ws[i + 1].db, k)) {
      StepOnCell(ws[i], steps[i], k);
    }
  }

  // ----- Payments -----

  predicate AutoPays(w: World, step: Step, k: Key) {
    step.TryGrant? && step.k == k && Decide(At(w.db, k), Catalogued(w.db, k), step.io).Paid?
  }

  predicate HandPays(w: World, step: Step, k: Key) {
    match step
    case GrantTier(j, io) => j == k && ManualPays(At(w.db, k), io)
    case GrantAccount(server, account, io) => k.server == server && k.account == account && ManualPays(At(w.db, k), io)
    case _ => false
  }

  predicate Pays(w: World, step: Step, k: Key) {
    AutoPays(w, step, k) || HandPays(w, step, k)
  }

  predicate PurgesClaim(step: Step, k: Key) {
    step.Purge? && InScope(k, step.server, step.account) && step.done >= 2
  }

  predicate PurgesMarker(step: Step, k: Key) {
    step.Purge? && InScope(k, step.server, step.account) && step.done >= 3
  }

  predicate NoPurge(steps: seq<Step>, from: nat, to: nat, k: Key)
    requires to <= |steps|
  {
    forall m :: from <= m < to ==> !PurgesClaim(steps[m], k)
  }

  /** Some payment of k has not been followed by a purge of its claim. */
  ghost predicate PaidSincePurge(ws: seq<World>, steps: seq<Step>, j: nat, k: Key)
    requires |ws| == |steps| + 1 && j <= |steps|
  {
    exists i :: 0 <= i < j && Pays(ws[i], steps[i], k) && NoPurge(steps, i + 1, j, k)
  }
}
