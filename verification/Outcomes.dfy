/** What attempts, manual grants, resets and heals leave behind, cell by cell, said in terms
    of the rows before and of what failed. */
module Outcomes {
  import opened Options
  import opened BattlepassTables
  import opened Delivery
  import opened Protocol
  import Timestamps

  // ----- Delivery attempts -----

  /** The attempt gets as far as awarding: nothing it reads or calls fails before that, the
      claim is earned, the row is not delivered, and the tier exists. */
  predicate Awards(c: Cell, tier: Option<Tier>, io: AttemptIo) {
    io.statusError == None && !(c.row.Some? && c.row.value.status == Sealed)
    && io.claimError == None && c.claim.Some? && c.claim.value.status == Earned
    && io.tierError == None && tier.Some? && io.targetError == None && io.awardError == None
  }

  /** e is the first thing to go wrong. */
  predicate FailsFirst(c: Cell, tier: Option<Tier>, io: AttemptIo, e: Error) {
    io.statusError == Some(e)
    || (io.statusError == None && !(c.row.Some? && c.row.value.status == Sealed)
        && (io.claimError == Some(e)
            || (io.claimError == None && c.claim.Some? && c.claim.value.status == Earned
                && (io.tierError == Some(e)
                    || (io.tierError == None
                        && ((tier.None? && e == Error(false, "not found"))
                            || (tier.Some? && (io.targetError == Some(e) || (io.targetError == None && io.awardError == Some(e)))))))))
    )
  }

  /** An award pays the catalogued intel once, flips the claim and seals the row, keeping
      its attempts; a lost write leaves its column alone. */
  lemma AwardOutcome(c: Cell, tier: Option<Tier>, io: AttemptIo)
    requires Awards(c, tier, io)
    ensures Decide(c, tier, io) == Paid(tier.value.intel)
    ensures
      var c1 := AttemptCell(c, tier, io);
      c1.seen == c.seen
      && c1.claim == (if io.lostFlip then c.claim else Some(c.claim.value.(status := Granted, lastError := "")))
      && c1.row == (if io.lostSeal then c.row
                    else Some(GrantRow(Sealed, if c.row.Some? then c.row.value.attempts else 1, "", "")))
  {}

  /** A delivered row is left alone; a key with nothing earned is sealed unpaid. */
  lemma SettledOutcome(c: Cell, tier: Option<Tier>, io: AttemptIo)
    requires io.statusError == None
    ensures c.row.Some? && c.row.value.status == Sealed ==> AttemptCell(c, tier, io) == c
    ensures !(c.row.Some? && c.row.value.status == Sealed) && io.claimError == None
            && !(c.claim.Some? && c.claim.value.status == Earned) ==>
              AttemptCell(c, tier, io) ==
              if io.lostSeal then c
              else c.(row := Some(GrantRow(Sealed, if c.row.Some? then c.row.value.attempts else 1, "", "")))
  {}

  lemma RefusedByFirst(c: Cell, tier: Option<Tier>, io: AttemptIo, e: Error)
    ensures Decide(c, tier, io) == Refused(e) <==> FailsFirst(c, tier, io, e)
  {}

  /** A failure that is not about an online player counts an attempt: the third exhausts the
      row, and before that it waits a day. */
  lemma FailureOutcome(c: Cell, tier: Option<Tier>, io: AttemptIo, e: Error)
    requires FailsFirst(c, tier, io, e) && !e.online
    ensures
      var n := if c.row.Some? then c.row.value.attempts + 1 else 1;
      AttemptCell(c, tier, io) ==
      if io.lostFailure then c
      else c.(row := Some(if n >= 3 then GrantRow(Exhausted, n, e.message, "")
                          else GrantRow(Pending, n, e.message, Timestamps.Format(io.now + 86_400))))
  {
    hide Decide, FailsFirst, Timestamps.Format;
    RefusedByFirst(c, tier, io, e);
  }

  /** An online player only puts the next attempt five minutes off. */
  lemma OnlineOutcome(c: Cell, tier: Option<Tier>, io: AttemptIo, e: Error)
    requires FailsFirst(c, tier, io, e) && e.online
    ensures
      AttemptCell(c, tier, io) ==
      if io.lostFailure then c
      else c.(row := Some(if c.row.Some? then c.row.value.(lastError := e.message, nextAttemptAt := Timestamps.Format(io.now + 300))
                          else GrantRow(Pending, 0, e.message, Timestamps.Format(io.now + 300))))
  {
    hide Decide, FailsFirst, Timestamps.Format;
    RefusedByFirst(c, tier, io, e);
  }

  // ----- Manual grants -----

  /** A manual grant touches an earned claim only: granted when everything succeeds, noted
      and still earned when the award fails. */
  lemma HandGrantOutcome(c: Cell, io: ManualIo)
    ensures
      var c1 := ManualCell(c, io);
      var earned := c.claim.Some? && c.claim.value.status == Earned;
      var reaches := io.readError == None && io.targetError == None;
      c1.seen == c.seen && c1.row == c.row
      && (!earned || !reaches ==> c1.claim == c.claim)
      && (earned && reaches && io.awardError == None ==>
            c1.claim == if io.lostMark then c.claim else Some(c.claim.value.(status := Granted, lastError := "")))
      && (earned && reaches && io.awardError.Some? ==>
            c1.claim == if io.lostNote then c.claim
                        else Some(Claim(Earned, c.claim.value.intel, c.claim.value.attempts + 1, io.awardError.value.message)))
      && (ManualPays(c, io) <==> earned && reaches && io.awardError == None)
  {}

  // ----- Resets -----

  predicate Resets(k: Key, server: int, account: int) {
    k.server == server && (account == 0 || account == k.account)
  }

  /** The ledger statement of either reset drops exactly the pending and exhausted rows. */
  function RowAfterReset(row: Option<GrantRow>): Option<GrantRow> {
    if row.Some? && row.value.status != Sealed then None else row
  }

  /** A demote, by how many of its statements were made: the ledger's, then the claims'. */
  lemma DemoteOutcome(db: Db, server: int, account: int, done: nat, k: Key)
    ensures
      var c, c1 := At(db, k), At(DemoteDb(db, server, account, done), k);
      c1.seen == c.seen
      && c1.row == (if Resets(k, server, account) && done >= 1 then RowAfterReset(c.row) else c.row)
      && c1.claim == (if Resets(k, server, account) && done >= 2 && c.claim.Some? && c.claim.value.status == Earned
                      then Some(c.claim.value.(status := Baseline)) else c.claim)
  {}

  /** A purge: the ledger's statement, the claims', the markers'. */
  lemma PurgeOutcome(db: Db, server: int, account: int, done: nat, k: Key)
    ensures
      var c, c1 := At(db, k), At(PurgeDb(db, server, account, done), k);
      c1.row == (if Resets(k, server, account) && done >= 1 then RowAfterReset(c.row) else c.row)
      && c1.claim == (if Resets(k, server, account) && done >= 2 then None else c.claim)
      && c1.seen == (c.seen && !(Resets(k, server, account) && done >= 3))
  {}

  // ----- Healing -----

  /** A stuck row starts over and is due at once; no other cell changes. */
  lemma HealOutcome(db: Db, k: Key, now: nat)
    ensures
      var c, c1 := At(db, k), At(Heal(db), k);
      if c.row.Some? && c.row.value.status == Exhausted && CarriesMarker(c.row.value.lastError)
      then c1 == c.(row := Some(GrantRow(Pending, 0, c.row.value.lastError, ""))) && k in DueKeys(Heal(db), k.server, now)
      else c1 == c
  {
    hide Timestamps.Format;
    Timestamps.BlankComesFirst(now);
  }

  /** A message carries the marker exactly when its text stands in it somewhere, whatever
      the case of its letters. */
  lemma MarkerOutcome(message: string)
    ensures CarriesMarker(message) <==>
            exists i, j :: 0 <= i <= j <= |message| && Lower(message[i..j]) == "player is currently"
  {
    if CarriesMarker(message) {
      var i :| 0 <= i <= |message| && MarkerAt(message, i);
      assert Lower(message[i..i + |ONLINE_MARKER|]) == "player is currently";
    }
    if i, j :| 0 <= i <= j <= |message| && Lower(message[i..j]) == "player is currently" {
      assert |Lower(message[i..j])| == j - i;
      assert MarkerAt(message, i);
    }
  }

  lemma LowerOutcome(c: char)
    ensures LowerChar(c) == if 'A' <= c <= 'Z' then ((c as int) + 32) as char else c
  {}

  // ----- Listing -----

  /** A server's due list holds rows of that server only, each pending and with attempts left. */
  lemma DueOutcome(db: Db, server: int, now: nat, k: Key)
    ensures k in DueKeys(db, server, now) <==>
            k.server == server && k in db.ledger && db.ledger[k].status == Pending && db.ledger[k].attempts < 3
            && (db.ledger[k].nextAttemptAt == Timestamps.Format(now)
                || Timestamps.TextLess(db.ledger[k].nextAttemptAt, Timestamps.Format(now)))
  {}
}
