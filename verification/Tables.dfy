/** The battlepass tables and the effect of each SQL statement on them. Every table is
    keyed by (server_id, tier_key, account_id), so a database is also read key by key,
    as one cell holding the claim, the watched-unsatisfied marker and the ledger row. */
module BattlepassTables {
  import opened Options
  import Timestamps

  datatype Key = Key(server: int, tier: string, account: int)

  datatype Signal = Level | JourneyNode | PlayerTag | OtherSignal
  datatype Tier = Tier(key: string, signal: Signal, signalKey: string, threshold: int, intel: int, enabled: bool)

  datatype ClaimStatus = Baseline | Earned | Granted
  datatype Claim = Claim(status: ClaimStatus, intel: int, attempts: nat, lastError: string)

  /** Sealed is the ledger's terminal "granted" status. */
  datatype GrantStatus = Pending | Sealed | Exhausted
  datatype GrantRow = GrantRow(status: GrantStatus, attempts: nat, lastError: string, nextAttemptAt: string)

  datatype Db = Db(
    tiers: map<int, seq<Tier>>,
    claims: map<Key, Claim>,
    seen: set<Key>,
    ledger: map<Key, GrantRow>)

  datatype Cell = Cell(claim: Option<Claim>, seen: bool, row: Option<GrantRow>) {
    predicate Holds(status: ClaimStatus) {
      claim.Some? && claim.value.status == status
    }

    predicate RowIs(status: GrantStatus) {
      row.Some? && row.value.status == status
    }
  }

  const MAX_ATTEMPTS: nat := 3
  const RETRY_BACKOFF: nat := 24 * 60 * 60
  const ONLINE_BACKOFF: nat := 5 * 60
  const ONLINE_MARKER := "player is currently"

  // ----- Reading and writing one key -----

  function Lookup<V>(m: map<Key, V>, k: Key): Option<V> {
    if k in m then Some(m[k]) else None
  }

  function SetEntry<V>(m: map<Key, V>, k: Key, v: Option<V>): map<Key, V> {
    if v.Some? then m[k := v.value] else m - {k}
  }

  function At(db: Db, k: Key): Cell {
    Cell(Lookup(db.claims, k), k in db.seen, Lookup(db.ledger, k))
  }

  function Put(db: Db, k: Key, c: Cell): Db {
    db.(claims := SetEntry(db.claims, k, c.claim),
        seen := if c.seen then db.seen + {k} else db.seen - {k},
        ledger := SetEntry(db.ledger, k, c.row))
  }

  lemma PutChangesOneCell(db: Db, k: Key, c: Cell)
    ensures At(Put(db, k, c), k) == c
    ensures forall j :: j != k ==> At(Put(db, k, c), j) == At(db, j)
  {}

  lemma PutBack(db: Db, k: Key)
    ensures Put(db, k, At(db, k)) == db
  {}

  /** Databases with the same catalogue and the same cells are the same database. */
  lemma SameCellsSameDb(x: Db, y: Db)
    requires x.tiers == y.tiers
    requires forall k :: At(x, k) == At(y, k)
    ensures x == y
  {
    forall k
      ensures k in x.claims <==> k in y.claims
      ensures k in x.claims ==> x.claims[k] == y.claims[k]
      ensures k in x.seen <==> k in y.seen
      ensures k in x.ledger <==> k in y.ledger
      ensures k in x.ledger ==> x.ledger[k] == y.ledger[k]
    {
      assert At(x, k) == At(y, k);
    }
    assert x.claims == y.claims;
    assert x.seen == y.seen;
    assert x.ledger == y.ledger;
  }

  /** The rows an operator's reset names; account 0 stands for every account. */
  predicate InScope(k: Key, server: int, account: int) {
    k.server == server && (account == 0 || k.account == account)
  }

  // ----- Claims and markers -----

  /** recordClaim: insert, and do nothing when the claim exists. */
  function WithClaim(claim: Option<Claim>, status: ClaimStatus, intel: int): Option<Claim> {
    if claim.Some? then claim else Some(Claim(status, intel, 0, ""))
  }

  /** markGrantedForTier and markGrantedForAccount flip earned claims only. */
  function Flipped(claim: Claim): Claim {
    if claim.status == Earned then claim.(status := Granted, lastError := "") else claim
  }

  /** recordGrantFailureForTier and recordGrantFailure note an error on earned claims. */
  function Noted(claim: Claim, message: string): Claim {
    if claim.status == Earned then claim.(attempts := claim.attempts + 1, lastError := message) else claim
  }

  function Demoted(claim: Claim): Claim {
    if claim.status == Earned then claim.(status := Baseline) else claim
  }

  function OnClaim(claim: Option<Claim>, f: Claim -> Claim): Option<Claim> {
    if claim.Some? then Some(f(claim.value)) else None
  }

  /** An UPDATE of the claims in scope. */
  function MapClaims(m: map<Key, Claim>, server: int, account: int, f: Claim -> Claim): map<Key, Claim> {
    map k | k in m :: if InScope(k, server, account) then f(m[k]) else m[k]
  }

  // ----- Grant ledger -----

  /** recordPendingGrant: insert, and do nothing when the row exists. */
  function Enqueued(row: Option<GrantRow>): Option<GrantRow> {
    if row.Some? then row else Some(GrantRow(Pending, 0, "", ""))
  }

  /** recordGrantLedgerSuccess: upsert; the attempt count of an existing row is kept. */
  function Succeeded(row: Option<GrantRow>): Option<GrantRow> {
    Some(GrantRow(Sealed, if row.Some? then row.value.attempts else 1, "", ""))
  }

  /** recordGrantLedgerFailure: upsert; whatever the status was, it is recomputed from
      the new attempt count. */
  function Failed(row: Option<GrantRow>, message: string, now: nat): Option<GrantRow> {
    var attempts := if row.Some? then row.value.attempts + 1 else 1;
    if attempts >= MAX_ATTEMPTS
    then Some(GrantRow(Exhausted, attempts, message, ""))
    else Some(GrantRow(Pending, attempts, message, Timestamps.Format(now + RETRY_BACKOFF)))
  }

  /** recordGrantLedgerRetryLater: upsert that leaves status and attempts alone. */
  function Deferred(row: Option<GrantRow>, message: string, now: nat): Option<GrantRow> {
    var next := Timestamps.Format(now + ONLINE_BACKOFF);
    if row.Some? then Some(row.value.(lastError := message, nextAttemptAt := next))
    else Some(GrantRow(Pending, 0, message, next))
  }

  /** The SQL LIKE '%marker%' test, which ignores the case of ASCII letters. */
  predicate CarriesMarker(message: string) {
    exists i :: 0 <= i <= |message| && MarkerAt(message, i)
  }

  predicate MarkerAt(message: string, i: nat)
    requires i <= |message|
  {
    i + |ONLINE_MARKER| <= |message| && Lower(message[i..i + |ONLINE_MARKER|]) == ONLINE_MARKER
  }

  function LowerChar(c: char): char {
    if 'A' <= c <= 'Z' then c - 'A' + 'a' else c
  }

  function Lower(s: string): string {
    seq(|s|, i requires 0 <= i < |s| => LowerChar(s[i]))
  }

  /** healExhaustedOnlineGrantLedger, on one row. */
  function Healed(row: GrantRow): GrantRow {
    if row.status == Exhausted && CarriesMarker(row.lastError)
    then row.(status := Pending, attempts := 0, nextAttemptAt := "")
    else row
  }

  predicate Unsettled(row: GrantRow) {
    row.status == Pending || row.status == Exhausted
  }

  /** The WHERE clause of listRetryableGrantLedger. */
  predicate Due(row: GrantRow, now: nat) {
    row.status == Pending && row.attempts < MAX_ATTEMPTS
    && Timestamps.TextAtMost(row.nextAttemptAt, Timestamps.Format(now))
  }

  function DueKeys(db: Db, server: int, now: nat): set<Key> {
    set k | k in db.ledger && k.server == server && Due(db.ledger[k], now)
  }

  // ----- Statements that touch many rows -----

  function DeleteUnsettled(db: Db, server: int, account: int): Db {
    db.(ledger := map k | k in db.ledger && !(InScope(k, server, account) && Unsettled(db.ledger[k])) :: db.ledger[k])
  }

  function DemoteEarned(db: Db, server: int, account: int): Db {
    db.(claims := MapClaims(db.claims, server, account, Demoted))
  }

  function PurgeClaims(db: Db, server: int, account: int): Db {
    db.(claims := map k | k in db.claims && !InScope(k, server, account) :: db.claims[k])
  }

  function PurgeSeen(db: Db, server: int, account: int): Db {
    db.(seen := set k | k in db.seen && !InScope(k, server, account))
  }

  function Heal(db: Db): Db {
    db.(ledger := map k | k in db.ledger :: Healed(db.ledger[k]))
  }

  // ----- Catalogue -----

  /** tier_key is unique within a server. */
  predicate DistinctKeys(tiers: seq<Tier>) {
    forall i, j :: 0 <= i < j < |tiers| ==> tiers[i].key != tiers[j].key
  }

  function TierNamed(tiers: seq<Tier>, key: string): (t: Option<Tier>)
    ensures t.Some? ==> t.value in tiers && t.value.key == key
    ensures t.None? ==> forall i :: 0 <= i < |tiers| ==> tiers[i].key != key
  {
    if tiers == [] then None
    else if tiers[0].key == key then Some(tiers[0])
    else TierNamed(tiers[1..], key)
  }

  lemma TierIsNamed(tiers: seq<Tier>, t: Tier)
    requires DistinctKeys(tiers) && t in tiers
    ensures TierNamed(tiers, t.key) == Some(t)
  {}

  /** getTierByKey. */
  function Catalogued(db: Db, k: Key): Option<Tier> {
    if k.server in db.tiers then TierNamed(db.tiers[k.server], k.tier) else None
  }
}
