/** Delivery, manual grants and resets, statement by statement, against Delivery and
    Protocol. */
module GrantEngine {
  import opened Options
  import opened BattlepassTables
  import opened Store
  import opened Delivery
  import opened Protocol
  import opened Sums
  import opened Totals
  import opened Outcomes

  const WRITE_FAILED := Error(false, "write failed")

  function Lost(lost: bool): Option<Error> {
    if lost then Some(WRITE_FAILED) else None
  }

  // ----- One attempt -----

  /** battlepassGrantAlreadySettled. */
  method AlreadySettled(store: BattlepassStore, tierKey: string, account: int, io: AttemptIo)
    returns (settled: bool, err: Option<Error>)
    modifies store.db
    ensures
      var k, was := Key(store.serverID, tierKey, account), old(store.db.Contents());
      var verdict := Decide(At(was, k), Catalogued(was, k), io);
      (settled <==> verdict.Settled?)
      && (settled ==> err.None? && store.db.Contents() == Attempt(was, k, io))
      && (!settled ==> store.db.Contents() == was)
      && (err.Some? ==> verdict == Refused(err.value))
      && (err.None? && !settled ==> io.statusError.None? && io.claimError.None? && At(was, k).Holds(Earned) && !At(was, k).RowIs(Sealed))
  {
    ghost var k, was := Key(store.serverID, tierKey, account), store.db.Contents();
    PutBack(was, k);
    settled := false;
    var status, claim;
    status, err := store.GrantLedgerStatus(tierKey, account, io.statusError);
    if err.Some? { return; }
    if status == Some(Sealed) {
      settled := true;
      return;
    }
    claim, err := store.EarnedClaim(account, tierKey, io.claimError);
    if err.Some? { return; }
    if claim.None? {
      var logged := store.RecordGrantLedgerSuccess(tierKey, account, Lost(io.lostSeal));
      settled := true;
    }
  }

  /** recordBattlepassGrantFailure: errors of the ledger write are logged only. */
  method RecordFailure(store: BattlepassStore, tierKey: string, account: int, cause: Error, io: AttemptIo)
    modifies store.db
    ensures
      var k, was := Key(store.serverID, tierKey, account), old(store.db.Contents());
      store.db.Contents() ==
        if io.lostFailure then was else Put(was, k, At(was, k).(row := RecordRefusal(At(was, k).row, cause, io.now)))
  {
    var logged;
    if cause.online {
      logged := store.RecordGrantLedgerRetryLater(tierKey, account, cause.message, io.now, Lost(io.lostFailure));
    } else {
      logged := store.RecordGrantLedgerFailure(tierKey, account, cause.message, io.now, Lost(io.lostFailure));
    }
  }

  /** attemptBattlepassGrant; awarded is the intel the game accepted. */
  method AttemptGrant(store: BattlepassStore, tierKey: string, account: int, io: AttemptIo)
    returns (awarded: Option<int>, err: Option<Error>)
    modifies store.db
    ensures
      var k, was := Key(store.serverID, tierKey, account), old(store.db.Contents());
      var verdict := Decide(At(was, k), Catalogued(was, k), io);
      store.db.Contents() == Attempt(was, k, io)
      && err == (if verdict.Refused? then Some(verdict.cause) else None)
      && awarded == (if verdict.Paid? then Some(verdict.intel) else None)
  {
    ghost var k, was := Key(store.serverID, tierKey, account), store.db.Contents();
    PutBack(was, k);
    awarded := None;
    var settled;
    settled, err := AlreadySettled(store, tierKey, account, io);
    if err.Some? {
      RecordFailure(store, tierKey, account, err.value, io);
      return;
    }
    if settled { return; }
    var tier;
    tier, err := store.GetTierByKey(tierKey, io.tierError);
    if err.None? && tier.None? { err := Some(NOT_FOUND); }
    if err.None? { err := io.targetError; }
    if err.None? { err := io.awardError; }
    if err.Some? {
      RecordFailure(store, tierKey, account, err.value, io);
      return;
    }
    awarded := Some(tier.value.intel);
    var logged := store.MarkGrantedForTier(account, tierKey, Lost(io.lostFlip));
    logged := store.RecordGrantLedgerSuccess(tierKey, account, Lost(io.lostSeal));
    TwoPuts(was, k, if io.lostFlip then was else store.db.Contents(), io);
  }

  /** The claim flip and the ledger seal, as one change of the key. */
  lemma TwoPuts(was: Db, k: Key, ignored: Db, io: AttemptIo)
    ensures
      var c := At(was, k);
      var flipped := if io.lostFlip then was else Put(was, k, c.(claim := OnClaim(c.claim, Flipped)));
      var sealed := if io.lostSeal then flipped else Put(flipped, k, At(flipped, k).(row := Succeeded(At(flipped, k).row)));
      sealed == Put(was, k, c.(claim := if io.lostFlip then c.claim else OnClaim(c.claim, Flipped),
                               row := if io.lostSeal then c.row else Succeeded(c.row)))
  {
    PutBack(was, k);
  }

  // ----- One tick of the delivery loop -----

  datatype DeferredClaim = DeferredClaim(owner: int, attempts: nat, ref: string)

  function ClaimKey(server: int, claim: DeferredClaim): Key {
    Key(server, claim.ref, claim.owner)
  }

  /** The due rows as the shared retry core sees them; the tier key travels with each. */
  method ListRetryable(store: BattlepassStore, now: nat, fault: Option<Error>)
    returns (out: seq<DeferredClaim>, err: Option<Error>)
    ensures err == fault
    ensures err.None? ==> forall k ::
              k in DueKeys(store.db.Contents(), store.serverID, now) <==>
              exists i :: 0 <= i < |out| && ClaimKey(store.serverID, out[i]) == k
    ensures forall i, j :: 0 <= i < j < |out| ==> ClaimKey(store.serverID, out[i]) != ClaimKey(store.serverID, out[j])
    ensures forall i :: 0 <= i < |out| ==>
              ClaimKey(store.serverID, out[i]) in store.db.ledger
              && out[i].attempts == store.db.ledger[ClaimKey(store.serverID, out[i])].attempts
  {
    var rows;
    rows, err := store.ListRetryableGrantLedger(now, fault);
    out := [];
    if err.Some? { return; }
    for i := 0 to |rows|
      invariant |out| == i && forall j :: 0 <= j < i ==> ClaimKey(store.serverID, out[j]) == rows[j]
      invariant forall j :: 0 <= j < i ==> rows[j] in store.db.ledger && out[j].attempts == store.db.ledger[rows[j]].attempts
    {
      assert rows[i] in rows;
      out := out + [DeferredClaim(rows[i].account, store.db.ledger[rows[i]].attempts, rows[i].tier)];
    }
  }

  /** processDeferredGrantTick: every due tier, of every account, is attempted exactly once
      with its own key, and nothing else changes. */
  method ProcessTick(store: BattlepassStore, now: nat, fault: Option<Error>, io: Key -> AttemptIo)
    modifies store.db
    ensures
      var was := old(store.db.Contents());
      store.db.Contents().tiers == was.tiers
      && forall k :: At(store.db.Contents(), k) ==
           if fault.None? && k.tier != "" && k in DueKeys(was, store.serverID, now)
           then AttemptCell(At(was, k), Catalogued(was, k), io(k)) else At(was, k)
  {
    ghost var was := store.db.Contents();
    var claims, err := ListRetryable(store, now, fault);
    if err.Some? { return; }
    var i := 0;
    while i < |claims|
      invariant 0 <= i <= |claims|
      invariant store.db.Contents().tiers == was.tiers
      invariant forall k :: At(store.db.Contents(), k) == (
                  if k.tier != "" && Listed(claims[..i], store.serverID, k)
                  then AttemptCell(At(was, k), Catalogued(was, k), io(k)) else At(was, k))
    {
      var claim := claims[i];
      var k := ClaimKey(store.serverID, claim);
      ListedOneMore(claims, store.serverID, i);
      if claim.ref != "" {
        ghost var before := store.db.Contents();
        var awarded;
        awarded, err := AttemptGrant(store, claim.ref, claim.owner, io(k));
        PutChangesOneCell(before, k, AttemptCell(At(before, k), Catalogued(before, k), io(k)));
      }
      i := i + 1;
    }
    assert claims[..i] == claims;
  }

  ghost predicate Listed(claims: seq<DeferredClaim>, server: int, k: Key) {
    exists i :: 0 <= i < |claims| && ClaimKey(server, claims[i]) == k
  }

  lemma ListedOneMore(claims: seq<DeferredClaim>, server: int, i: nat)
    requires i < |claims|
    requires forall a, b :: 0 <= a < b < |claims| ==> ClaimKey(server, claims[a]) != ClaimKey(server, claims[b])
    ensures forall k :: Listed(claims[..i + 1], server, k) <==> Listed(claims[..i], server, k) || k == ClaimKey(server, claims[i])
    ensures !Listed(claims[..i], server, ClaimKey(server, claims[i]))
  {
    forall k ensures Listed(claims[..i + 1], server, k) <==> Listed(claims[..i], server, k) || k == ClaimKey(server, claims[i]) {
      if Listed(claims[..i], server, k) {
        var j :| 0 <= j < i && ClaimKey(server, claims[..i][j]) == k;
        assert claims[..i + 1][j] == claims[j];
      }
      assert claims[..i + 1][i] == claims[i];
    }
  }

  // ----- Manual grants -----

  datatype ManualResult = Awarded(intel: int, claimUpdated: bool) | NothingEarned | Rejected(cause: Error)

  /** grantBattlepassTier. */
  method GrantTierByHand(store: BattlepassStore, account: int, tierKey: string, io: ManualIo) returns (result: ManualResult)
    modifies store.db
    ensures
      var k, was := Key(store.serverID, tierKey, account), old(store.db.Contents());
      store.db.Contents() == Put(was, k, ManualCell(At(was, k), io))
      && (result.Awarded? <==> ManualPays(At(was, k), io))
      && result == (if io.readError.Some? then Rejected(io.readError.value)
                    else if !At(was, k).Holds(Earned) then NothingEarned
                    else if io.targetError.Some? then Rejected(io.targetError.value)
                    else if io.awardError.Some? then Rejected(io.awardError.value)
                    else Awarded(was.claims[k].intel, !io.lostMark))
  {
    ghost var k, was := Key(store.serverID, tierKey, account), store.db.Contents();
    PutBack(was, k);
    var claim, err := store.EarnedClaim(account, tierKey, io.readError);
    if err.Some? { return Rejected(err.value); }
    if claim.None? { return NothingEarned; }
    if io.targetError.Some? { return Rejected(io.targetError.value); }
    if io.awardError.Some? {
      var logged := store.RecordGrantFailureForTier(account, tierKey, io.awardError.value.message, Lost(io.lostNote));
      return Rejected(io.awardError.value);
    }
    err := store.MarkGrantedForTier(account, tierKey, Lost(io.lostMark));
    result := Awarded(claim.value.intel, err.None?);
  }

  ghost function ListTotal(keys: seq<Key>, amounts: map<Key, int>): int
    requires forall k :: k in keys ==> k in amounts
  {
    if keys == [] then 0 else ListTotal(keys[..|keys| - 1], amounts) + amounts[keys[|keys| - 1]]
  }

  lemma {:induction false} ListTotalIsSum(keys: seq<Key>, amounts: map<Key, int>)
    requires forall k :: k in keys <==> k in amounts
    requires forall i, j :: 0 <= i < j < |keys| ==> keys[i] != keys[j]
    ensures ListTotal(keys, amounts) == Sum(amounts)
  {
    if keys == [] {
      assert amounts == map[];
    } else {
      var front, last := keys[..|keys| - 1], keys[|keys| - 1];
      assert keys == front + [last];
      ListTotalIsSum(front, amounts - {last});
      SameListTotal(front, amounts - {last}, amounts);
      SumWithout(amounts, last);
    }
  }

  lemma {:induction false} SameListTotal(keys: seq<Key>, a: map<Key, int>, b: map<Key, int>)
    requires forall k :: k in keys ==> k in a && k in b && a[k] == b[k]
    ensures ListTotal(keys, a) == ListTotal(keys, b)
  {
    if keys != [] { SameListTotal(keys[..|keys| - 1], a, b); }
  }

  /** The intel of the earned claims, summed claim by claim. */
  method TotalOf(store: BattlepassStore, account: int, earned: seq<Key>) returns (total: int)
    requires forall k :: k in earned <==> k in Claims(store.db.Contents(), store.serverID, account, Earned)
    requires forall i, j :: 0 <= i < j < |earned| ==> earned[i] != earned[j]
    ensures total == EarnedTotal(store.db.Contents(), store.serverID, account)
  {
    ghost var amounts := Claims(store.db.Contents(), store.serverID, account, Earned);
    total := 0;
    for i := 0 to |earned|
      invariant total == ListTotal(earned[..i], amounts)
    {
      assert earned[..i + 1][..i] == earned[..i] && earned[i] in earned;
      total := total + store.db.claims[earned[i]].intel;
    }
    assert earned[..|earned|] == earned;
    ListTotalIsSum(earned, amounts);
  }

  /** grantBattlepassEarned: one award for the total of the account's earned claims. */
  method GrantAccountByHand(store: BattlepassStore, account: int, io: ManualIo) returns (result: ManualResult)
    modifies store.db
    ensures
      var was := old(store.db.Contents());
      store.db.Contents() == ManualClaims(was, store.serverID, account, io)
      && result == (if io.readError.Some? then Rejected(io.readError.value)
                    else if Claims(was, store.serverID, account, Earned) == map[] then NothingEarned
                    else if io.targetError.Some? then Rejected(io.targetError.value)
                    else if io.awardError.Some? then Rejected(io.awardError.value)
                    else Awarded(EarnedTotal(was, store.serverID, account), !io.lostMark))
  {
    hide ManualClaims, EarnedTotal, Claims;
    ghost var was := store.db.Contents();
    ManualClaimsCases(was, store.serverID, account, io);
    var earned, err := store.EarnedClaims(account, io.readError);
    if err.Some? { return Rejected(err.value); }
    if |earned| == 0 {
      NothingToGrant(was, store.serverID, account, io);
      return NothingEarned;
    }
    assert earned[0] in Claims(was, store.serverID, account, Earned);
    if io.targetError.Some? { return Rejected(io.targetError.value); }
    var total := TotalOf(store, account, earned);
    if io.awardError.Some? {
      var logged := store.UpdateAccount(account, claim => Noted(claim, io.awardError.value.message), Lost(io.lostNote));
      return Rejected(io.awardError.value);
    }
    err := store.UpdateAccount(account, Flipped, Lost(io.lostMark));
    result := Awarded(total, err.None?);
  }

  lemma ManualClaimsCases(db: Db, server: int, account: int, io: ManualIo)
    ensures
      ManualClaims(db, server, account, io) ==
      if io.readError.Some? || io.targetError.Some? then db
      else if io.awardError.Some? then
        if io.lostNote then db
        else db.(claims := map k | k in db.claims ::
          if Mine(k, server, account) then Noted(db.claims[k], io.awardError.value.message) else db.claims[k])
      else if io.lostMark then db
      else db.(claims := map k | k in db.claims :: if Mine(k, server, account) then Flipped(db.claims[k]) else db.claims[k])
  {}

  lemma NothingToGrant(db: Db, server: int, account: int, io: ManualIo)
    requires forall k :: k !in Claims(db, server, account, Earned)
    ensures ManualClaims(db, server, account, io) == db && Claims(db, server, account, Earned) == map[]
  {
    forall k | k in db.claims ensures ManualClaims(db, server, account, io).claims[k] == db.claims[k] {
      assert k !in Claims(db, server, account, Earned);
    }
    assert ManualClaims(db, server, account, io).claims == db.claims;
  }

  // ----- Resets -----

  datatype ResetMode = DemoteMode | PurgeMode
  datatype ResetIo = ResetIo(ledgerError: Option<Error>, claimsError: Option<Error>, markersError: Option<Error>)

  /** Statements a reset completes before one fails. */
  function Completed(mode: ResetMode, io: ResetIo): nat {
    if io.ledgerError.Some? then 0
    else if io.claimsError.Some? then 1
    else if mode == DemoteMode || io.markersError.Some? then 2
    else 3
  }

  /** The step of the protocol a reset request amounts to. */
  function ResetStep(mode: ResetMode, server: int, account: int, io: ResetIo): Step {
    match mode
    case DemoteMode => Demote(server, account, Completed(mode, io))
    case PurgeMode => Purge(server, account, Completed(mode, io))
  }

  /** What a reset request does to a cell, by what failed: nothing after the first failure,
      nothing out of scope, no delivered row, and no granted claim unless it purges. */
  predicate CellReset(c: Cell, c1: Cell, scoped: bool, mode: ResetMode, io: ResetIo) {
    var ledger := scoped && io.ledgerError == None;
    var claims := ledger && io.claimsError == None;
    var markers := claims && mode == PurgeMode && io.markersError == None;
    c1.row == (if ledger && c.row.Some? && c.row.value.status != Sealed then None else c.row)
    && c1.claim == (if claims && mode == PurgeMode then None
                    else if claims && c.claim.Some? && c.claim.value.status == Earned
                    then Some(c.claim.value.(status := Baseline)) else c.claim)
    && c1.seen == (c.seen && !markers)
  }

  lemma CatalogueStays(was: Db, server: int, account: int, done: nat)
    ensures DemoteDb(was, server, account, done).tiers == was.tiers == PurgeDb(was, server, account, done).tiers
  {}

  lemma ResetCells(was: Db, mode: ResetMode, server: int, account: int, io: ResetIo, k: Key)
    ensures
      var now := Next(World(was, {}), ResetStep(mode, server, account, io)).db;
      now.tiers == was.tiers && CellReset(At(was, k), At(now, k), Resets(k, server, account), mode, io)
  {
    hide At, DemoteDb, PurgeDb;
    var done := Completed(mode, io);
    CatalogueStays(was, server, account, done);
    DemoteOutcome(was, server, account, done, k);
    PurgeOutcome(was, server, account, done, k);
  }

  /** handleBattlepassResetClaims, past its input checks: the ledger goes first, and a
      purge deletes claims and then markers. */
  method ResetClaims(store: BattlepassStore, mode: ResetMode, account: int, io: ResetIo) returns (err: Option<Error>)
    modifies store.db
    ensures store.db.Contents() == Next(World(old(store.db.Contents()), {}), ResetStep(mode, store.serverID, account, io)).db
    ensures store.db.tiers == old(store.db.tiers)
    ensures forall k ::
              CellReset(At(old(store.db.Contents()), k), At(store.db.Contents(), k), Resets(k, store.serverID, account), mode, io)
    ensures err == (if io.ledgerError.Some? then io.ledgerError
                    else if io.claimsError.Some? then io.claimsError
                    else if mode == PurgeMode then io.markersError else None)
  {
    ghost var was := store.db.Contents();
    forall k
      ensures
        var now := Next(World(was, {}), ResetStep(mode, store.serverID, account, io)).db;
        now.tiers == was.tiers && CellReset(At(was, k), At(now, k), Resets(k, store.serverID, account), mode, io)
    {
      ResetCells(was, mode, store.serverID, account, io, k);
    }
    err := store.DeleteUnsettledGrantLedger(account, io.ledgerError);
    if err.Some? { return; }
    if mode == DemoteMode {
      err := store.DemoteEarnedClaims(account, io.claimsError);
      return;
    }
    err := store.PurgeAllClaims(account, io.claimsError);
    if err.Some? { return; }
    err := store.PurgeTierSeen(account, io.markersError);
  }
}
