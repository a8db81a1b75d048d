/** One delivery attempt and one manual grant, as their effect on the key they serve.
    Everything the code reads from outside, and every statement that may fail, is an
    argument; a statement whose error is only logged is a lost write. */
module Delivery {
  import opened Options
  import opened BattlepassTables

  const NOT_FOUND := Error(false, "not found")

  datatype AttemptIo = AttemptIo(
    statusError: Option<Error>,   // reading the ledger status
    claimError: Option<Error>,    // reading the earned claim
    tierError: Option<Error>,     // reading the tier
    targetError: Option<Error>,   // resolving the character
    awardError: Option<Error>,    // awarding the intel
    lostFlip: bool,               // markGrantedForTier failed
    lostSeal: bool,               // recordGrantLedgerSuccess failed
    lostFailure: bool,            // recording the failure failed
    now: nat)

  /** How an attempt ends. */
  datatype Verdict = Settled(seal: bool) | Refused(cause: Error) | Paid(intel: int)

  /** battlepassGrantAlreadySettled, then the steps up to the award. */
  function Decide(c: Cell, tier: Option<Tier>, io: AttemptIo): Verdict {
    if io.statusError.Some? then Refused(io.statusError.value)
    else if c.RowIs(Sealed) then Settled(false)
    else if io.claimError.Some? then Refused(io.claimError.value)
    else if !c.Holds(Earned) then Settled(true)
    else if io.tierError.Some? then Refused(io.tierError.value)
    else if tier.None? then Refused(NOT_FOUND)
    else if io.targetError.Some? then Refused(io.targetError.value)
    else if io.awardError.Some? then Refused(io.awardError.value)
    else Paid(tier.value.intel)
  }

  /** recordBattlepassGrantFailure: an online player defers, anything else counts. */
  function RecordRefusal(row: Option<GrantRow>, cause: Error, now: nat): Option<GrantRow> {
    if cause.online then Deferred(row, cause.message, now) else Failed(row, cause.message, now)
  }

  function AttemptCell(c: Cell, tier: Option<Tier>, io: AttemptIo): Cell {
    match Decide(c, tier, io)
    case Settled(seal) => if seal && !io.lostSeal then c.(row := Succeeded(c.row)) else c
    case Refused(cause) => if io.lostFailure then c else c.(row := RecordRefusal(c.row, cause, io.now))
    case Paid(_) =>
      c.(claim := if io.lostFlip then c.claim else OnClaim(c.claim, Flipped),
         row := if io.lostSeal then c.row else Succeeded(c.row))
  }

  function Attempt(db: Db, k: Key, io: AttemptIo): Db {
    Put(db, k, AttemptCell(At(db, k), Catalogued(db, k), io))
  }

  // ----- Manual grants -----

  datatype ManualIo = ManualIo(
    readError: Option<Error>,     // reading the earned claims
    targetError: Option<Error>,   // fetching players, or no character for the account
    awardError: Option<Error>,
    lostMark: bool,               // marking the claims granted failed
    lostNote: bool)               // recording the failure failed

  predicate ManualPays(c: Cell, io: ManualIo) {
    io.readError.None? && c.Holds(Earned) && io.targetError.None? && io.awardError.None?
  }

  /** grantBattlepassTier on its key, and grantBattlepassEarned on each key of the account. */
  function ManualCell(c: Cell, io: ManualIo): Cell {
    if io.readError.Some? || io.targetError.Some? then c
    else if io.awardError.Some? then
      if io.lostNote then c else c.(claim := OnClaim(c.claim, claim => Noted(claim, io.awardError.value.message)))
    else if io.lostMark then c
    else c.(claim := OnClaim(c.claim, Flipped))
  }

  // ----- One attempt, exactly -----

  predicate AllWell(io: AttemptIo) {
    io.statusError.None? && io.claimError.None? && io.tierError.None? && io.targetError.None? && io.awardError.None?
  }

  /** A second attempt pays again exactly when the first lost both of its records. */
  lemma PaysAgainIffBothRecordsLost(c: Cell, tier: Option<Tier>, io: AttemptIo, again: AttemptIo)
    requires Decide(c, tier, io).Paid? && AllWell(again)
    ensures Decide(AttemptCell(c, tier, io), tier, again).Paid? <==> io.lostFlip && io.lostSeal
  {}

  /** The branches of an attempt, gathered: it pays exactly an earned, unsealed, catalogued
      claim, and only when every read and game-side call succeeds. */
  lemma PaysIff(c: Cell, tier: Option<Tier>, io: AttemptIo)
    ensures Decide(c, tier, io).Paid? <==> AllWell(io) && c.Holds(Earned) && !c.RowIs(Sealed) && tier.Some?
  {}
}
