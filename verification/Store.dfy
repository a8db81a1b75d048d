/** The battlepass store: one shared database handle, seen through views that are each
    bound to a server. A statement either takes effect or returns its error. */
module Store {
  import opened Options
  import opened BattlepassTables
  import opened Totals
  import Timestamps

  class Database {
    var tiers: map<int, seq<Tier>>
    var claims: map<Key, Claim>
    var seen: set<Key>
    var ledger: map<Key, GrantRow>

    constructor ()
      ensures Contents() == Db(map[], map[], {}, map[])
    {
      tiers, claims, seen, ledger := map[], map[], {}, map[];
    }

    ghost function Contents(): Db
      reads this
    {
      Db(tiers, claims, seen, ledger)
    }

    /** The uniqueness constraint on (server_id, tier_key). */
    ghost predicate UniqueTierKeys()
      reads this
    {
      forall server :: server in tiers ==> DistinctKeys(tiers[server])
    }
  }

  class BattlepassStore {
    const db: Database
    const serverID: int

    constructor (db: Database, serverID: int)
      ensures this.db == db && this.serverID == serverID
    {
      this.db, this.serverID := db, serverID;
    }

    /** A view of the same handle bound to another server. */
    method WithScope(server: int) returns (view: BattlepassStore)
      ensures fresh(view) && view.db == db && view.serverID == server
    {
      view := new BattlepassStore(db, server);
    }

    // ----- Catalogue -----

    method ListTiers(fault: Option<Error>) returns (tiers: seq<Tier>, err: Option<Error>)
      requires db.UniqueTierKeys()
      ensures err == fault && DistinctKeys(tiers)
      ensures err.None? ==> tiers == if serverID in db.tiers then db.tiers[serverID] else []
    {
      err := fault;
      tiers := if err.None? && serverID in db.tiers then db.tiers[serverID] else [];
    }

    method GetTierByKey(tierKey: string, fault: Option<Error>) returns (tier: Option<Tier>, err: Option<Error>)
      ensures err == fault
      ensures err.None? ==> tier == Catalogued(db.Contents(), Key(serverID, tierKey, 0))
    {
      tier, err := None, fault;
      if err.None? && serverID in db.tiers {
        var tiers := db.tiers[serverID];
        tier := TierNamed(tiers, tierKey);
      }
    }

    // ----- Claims -----

    method RecordClaim(tierKey: string, account: int, intel: int, status: ClaimStatus, fault: Option<Error>)
      returns (err: Option<Error>)
      modifies db
      ensures err == fault
      ensures
        var k, was := Key(serverID, tierKey, account), old(db.Contents());
        db.Contents() == if fault.Some? then was else Put(was, k, At(was, k).(claim := WithClaim(At(was, k).claim, status, intel)))
    {
      err := fault;
      var k := Key(serverID, tierKey, account);
      ghost var was := db.Contents();
      if err.None? && k !in db.claims {
        db.claims := db.claims[k := Claim(status, intel, 0, "")];
      }
      ReadBack(was, k);
    }

    /** The rows of one account, scanned into a map from tier to status. */
    method ClaimedKeys(account: int, fault: Option<Error>) returns (out: map<string, ClaimStatus>, err: Option<Error>)
      ensures err == fault
      ensures err.None? ==> forall t :: t in out <==> Key(serverID, t, account) in db.claims
      ensures err.None? ==> forall t :: t in out ==> out[t] == db.claims[Key(serverID, t, account)].status
    {
      out, err := map[], fault;
      if err.Some? { return; }
      var rest := db.claims.Keys;
      while rest != {}
        invariant rest <= db.claims.Keys
        invariant forall t :: t in out <==> Key(serverID, t, account) in db.claims.Keys - rest
        invariant forall t :: t in out ==> out[t] == db.claims[Key(serverID, t, account)].status
        decreases rest
      {
        var k :| k in rest;
        rest := rest - {k};
        if k.server == serverID && k.account == account {
          out := out[k.tier := db.claims[k].status];
        }
      }
    }

    /** The tiers of the account's earned claims, each once. */
    method EarnedClaims(account: int, fault: Option<Error>) returns (out: seq<Key>, err: Option<Error>)
      ensures err == fault
      ensures err.None? ==> forall k :: k in out <==> k in Claims(db.Contents(), serverID, account, Earned)
      ensures forall i, j :: 0 <= i < j < |out| ==> out[i] != out[j]
    {
      out, err := [], fault;
      if err.Some? { return; }
      var rest := db.claims.Keys;
      while rest != {}
        invariant rest <= db.claims.Keys
        invariant forall k :: k in out <==> k in Claims(db.Contents(), serverID, account, Earned) && k !in rest
        invariant forall i, j :: 0 <= i < j < |out| ==> out[i] != out[j]
        decreases rest
      {
        var k :| k in rest;
        rest := rest - {k};
        if Mine(k, serverID, account) && db.claims[k].status == Earned {
          out := out + [k];
        }
      }
    }

    method EarnedClaim(account: int, tierKey: string, fault: Option<Error>) returns (claim: Option<Claim>, err: Option<Error>)
      ensures err == fault
      ensures err.None? ==>
        var c := At(db.Contents(), Key(serverID, tierKey, account));
        claim == if c.Holds(Earned) then c.claim else None
    {
      claim, err := None, fault;
      var k := Key(serverID, tierKey, account);
      if err.None? && k in db.claims && db.claims[k].status == Earned {
        claim := Some(db.claims[k]);
      }
    }

    method MarkGrantedForTier(account: int, tierKey: string, fault: Option<Error>) returns (err: Option<Error>)
      modifies db
      ensures err == fault
      ensures
        var k, was := Key(serverID, tierKey, account), old(db.Contents());
        db.Contents() == if fault.Some? then was else Put(was, k, At(was, k).(claim := OnClaim(At(was, k).claim, Flipped)))
    {
      err := fault;
      var k := Key(serverID, tierKey, account);
      ghost var was := db.Contents();
      if err.None? && k in db.claims {
        db.claims := db.claims[k := Flipped(db.claims[k])];
      }
      ReadBack(was, k);
    }

    method RecordGrantFailureForTier(account: int, tierKey: string, message: string, fault: Option<Error>) returns (err: Option<Error>)
      modifies db
      ensures err == fault
      ensures
        var k, was := Key(serverID, tierKey, account), old(db.Contents());
        db.Contents() == if fault.Some? then was else Put(was, k, At(was, k).(claim := OnClaim(At(was, k).claim, claim => Noted(claim, message))))
    {
      err := fault;
      var k := Key(serverID, tierKey, account);
      ghost var was := db.Contents();
      if err.None? && k in db.claims {
        db.claims := db.claims[k := Noted(db.claims[k], message)];
      }
      ReadBack(was, k);
    }

    /** Every earned claim of exactly this account, account 0 included. */
    method UpdateAccount(account: int, f: Claim -> Claim, fault: Option<Error>) returns (err: Option<Error>)
      modifies db
      ensures err == fault
      ensures db.Contents() == if fault.Some? then old(db.Contents()) else
        old(db.Contents()).(claims := map k | k in old(db.claims) :: if Mine(k, serverID, account) then f(old(db.claims[k])) else old(db.claims[k]))
    {
      err := fault;
      if err.None? {
        db.claims := map k | k in db.claims :: if Mine(k, serverID, account) then f(db.claims[k]) else db.claims[k];
      }
    }

    method DemoteEarnedClaims(account: int, fault: Option<Error>) returns (err: Option<Error>)
      modifies db
      ensures err == fault
      ensures db.Contents() == if fault.Some? then old(db.Contents()) else DemoteEarned(old(db.Contents()), serverID, account)
    {
      err := fault;
      if err.None? {
        db.claims := MapClaims(db.claims, serverID, account, Demoted);
      }
    }

    method PurgeAllClaims(account: int, fault: Option<Error>) returns (err: Option<Error>)
      modifies db
      ensures err == fault
      ensures db.Contents() == if fault.Some? then old(db.Contents()) else PurgeClaims(old(db.Contents()), serverID, account)
    {
      err := fault;
      if err.None? {
        db.claims := map k | k in db.claims && !InScope(k, serverID, account) :: db.claims[k];
      }
    }

    /** account_id to pending intel, grouped in one scan. */
    method EarnedTotals() returns (out: map<int, int>)
      ensures forall a :: a in out <==> HasEarned(db.Contents(), serverID, a)
      ensures forall a :: a in out ==> out[a] == EarnedTotal(db.Contents(), serverID, a)
    {
      out := map[];
      var rest := db.claims.Keys;
      NothingScanned(db.Contents(), serverID);
      while rest != {}
        invariant rest <= db.claims.Keys
        invariant forall a :: a in out <==> HasEarned(Scanned(db.Contents(), rest), serverID, a)
        invariant forall a :: EarnedTotal(Scanned(db.Contents(), rest), serverID, a) == if a in out then out[a] else 0
        decreases rest
      {
        var k :| k in rest;
        OneMoreClaim(db.Contents(), rest, serverID, k);
        rest := rest - {k};
        if k.server == serverID && db.claims[k].status == Earned {
          out := out[k.account := (if k.account in out then out[k.account] else 0) + db.claims[k].intel];
        }
      }
      assert Scanned(db.Contents(), rest) == db.Contents();
    }

    // ----- Markers -----

    method SeenUnsatisfiedKeys(account: int, fault: Option<Error>) returns (out: set<string>, err: Option<Error>)
      ensures err == fault
      ensures err.None? ==> forall t :: t in out <==> Key(serverID, t, account) in db.seen
    {
      out, err := {}, fault;
      if err.Some? { return; }
      var rest := db.seen;
      while rest != {}
        invariant rest <= db.seen
        invariant forall t :: t in out <==> Key(serverID, t, account) in db.seen - rest
        decreases rest
      {
        var k :| k in rest;
        rest := rest - {k};
        if k.server == serverID && k.account == account {
          out := out + {k.tier};
        }
      }
    }

    method MarkSeenUnsatisfied(tierKey: string, account: int, fault: Option<Error>) returns (err: Option<Error>)
      modifies db
      ensures err == fault
      ensures
        var k, was := Key(serverID, tierKey, account), old(db.Contents());
        db.Contents() == if fault.Some? then was else Put(was, k, At(was, k).(seen := true))
    {
      err := fault;
      var k := Key(serverID, tierKey, account);
      ghost var was := db.Contents();
      if err.None? {
        db.seen := db.seen + {k};
      }
      ReadBack(was, k);
    }

    method PurgeTierSeen(account: int, fault: Option<Error>) returns (err: Option<Error>)
      modifies db
      ensures err == fault
      ensures db.Contents() == if fault.Some? then old(db.Contents()) else PurgeSeen(old(db.Contents()), serverID, account)
    {
      err := fault;
      if err.None? {
        db.seen := set k | k in db.seen && !InScope(k, serverID, account);
      }
    }

    // ----- Grant ledger -----

    method RecordPendingGrant(tierKey: string, account: int, fault: Option<Error>) returns (err: Option<Error>)
      modifies db
      ensures err == fault
      ensures
        var k, was := Key(serverID, tierKey, account), old(db.Contents());
        db.Contents() == if fault.Some? then was else Put(was, k, At(was, k).(row := Enqueued(At(was, k).row)))
    {
      err := fault;
      var k := Key(serverID, tierKey, account);
      ghost var was := db.Contents();
      if err.None? && k !in db.ledger {
        db.ledger := db.ledger[k := GrantRow(Pending, 0, "", "")];
      }
      ReadBack(was, k);
    }

    method RecordGrantLedgerSuccess(tierKey: string, account: int, fault: Option<Error>) returns (err: Option<Error>)
      modifies db
      ensures err == fault
      ensures
        var k, was := Key(serverID, tierKey, account), old(db.Contents());
        db.Contents() == if fault.Some? then was else Put(was, k, At(was, k).(row := Succeeded(At(was, k).row)))
    {
      err := fault;
      var k := Key(serverID, tierKey, account);
      ghost var was := db.Contents();
      if err.None? {
        if k in db.ledger {
          db.ledger := db.ledger[k := db.ledger[k].(status := Sealed, lastError := "", nextAttemptAt := "")];
        } else {
          db.ledger := db.ledger[k := GrantRow(Sealed, 1, "", "")];
        }
      }
      ReadBack(was, k);
    }

    method RecordGrantLedgerFailure(tierKey: string, account: int, message: string, now: nat, fault: Option<Error>) returns (err: Option<Error>)
      modifies db
      ensures err == fault
      ensures
        var k, was := Key(serverID, tierKey, account), old(db.Contents());
        db.Contents() == if fault.Some? then was else Put(was, k, At(was, k).(row := Failed(At(was, k).row, message, now)))
    {
      err := fault;
      var k := Key(serverID, tierKey, account);
      ghost var was := db.Contents();
      if err.None? {
        var next := Timestamps.Format(now + RETRY_BACKOFF);
        var attempts := if k in db.ledger then db.ledger[k].attempts + 1 else 1;
        var row := if attempts >= MAX_ATTEMPTS then GrantRow(Exhausted, attempts, message, "") else GrantRow(Pending, attempts, message, next);
        db.ledger := db.ledger[k := row];
      }
      ReadBack(was, k);
    }

    method RecordGrantLedgerRetryLater(tierKey: string, account: int, message: string, now: nat, fault: Option<Error>) returns (err: Option<Error>)
      modifies db
      ensures err == fault
      ensures
        var k, was := Key(serverID, tierKey, account), old(db.Contents());
        db.Contents() == if fault.Some? then was else Put(was, k, At(was, k).(row := Deferred(At(was, k).row, message, now)))
    {
      err := fault;
      var k := Key(serverID, tierKey, account);
      ghost var was := db.Contents();
      if err.None? {
        var next := Timestamps.Format(now + ONLINE_BACKOFF);
        if k in db.ledger {
          db.ledger := db.ledger[k := db.ledger[k].(lastError := message, nextAttemptAt := next)];
        } else {
          db.ledger := db.ledger[k := GrantRow(Pending, 0, message, next)];
        }
      }
      ReadBack(was, k);
    }

    /** Not scoped to a server. */
    method HealExhaustedOnlineGrantLedger(fault: Option<Error>) returns (err: Option<Error>)
      modifies db
      ensures err == fault
      ensures db.Contents() == if fault.Some? then old(db.Contents()) else Heal(old(db.Contents()))
    {
      err := fault;
      if err.None? {
        db.ledger := map k | k in db.ledger :: Healed(db.ledger[k]);
      }
    }

    method DeleteUnsettledGrantLedger(account: int, fault: Option<Error>) returns (err: Option<Error>)
      modifies db
      ensures err == fault
      ensures db.Contents() == if fault.Some? then old(db.Contents()) else DeleteUnsettled(old(db.Contents()), serverID, account)
    {
      err := fault;
      if err.None? {
        db.ledger := map k | k in db.ledger && !(InScope(k, serverID, account) && Unsettled(db.ledger[k])) :: db.ledger[k];
      }
    }

    method GrantLedgerStatus(tierKey: string, account: int, fault: Option<Error>) returns (status: Option<GrantStatus>, err: Option<Error>)
      ensures err == fault
      ensures err.None? ==>
        var row := At(db.Contents(), Key(serverID, tierKey, account)).row;
        status == if row.Some? then Some(row.value.status) else None
    {
      status, err := None, fault;
      var k := Key(serverID, tierKey, account);
      if err.None? && k in db.ledger {
        status := Some(db.ledger[k].status);
      }
    }

    /** The due rows of this server, each once. */
    method ListRetryableGrantLedger(now: nat, fault: Option<Error>) returns (out: seq<Key>, err: Option<Error>)
      ensures err == fault
      ensures err.None? ==> forall k :: k in out <==> k in DueKeys(db.Contents(), serverID, now)
      ensures forall i, j :: 0 <= i < j < |out| ==> out[i] != out[j]
    {
      out, err := [], fault;
      if err.Some? { return; }
      var rest := db.ledger.Keys;
      while rest != {}
        invariant rest <= db.ledger.Keys
        invariant forall k :: k in out <==> k in DueKeys(db.Contents(), serverID, now) && k !in rest
        invariant forall i, j :: 0 <= i < j < |out| ==> out[i] != out[j]
        decreases rest
      {
        var k :| k in rest;
        rest := rest - {k};
        if k.server == serverID && Due(db.ledger[k], now) {
          out := out + [k];
        }
      }
    }
  }

  /** A statement on one key, read back. */
  lemma ReadBack(was: Db, k: Key)
    ensures Put(was, k, At(was, k)) == was
  {}

  ghost predicate HasEarned(db: Db, server: int, account: int) {
    exists k :: k in db.claims && Mine(k, server, account) && db.claims[k].status == Earned
  }

  /** The claims a scan has passed when rest is still ahead of it. */
  ghost function Scanned(db: Db, rest: set<Key>): Db {
    db.(claims := db.claims - rest)
  }

  lemma NothingScanned(db: Db, server: int)
    ensures forall a :: EarnedTotal(Scanned(db, db.claims.Keys), server, a) == 0 && !HasEarned(Scanned(db, db.claims.Keys), server, a)
  {}

  lemma OneMoreClaim(db: Db, rest: set<Key>, server: int, k: Key)
    requires k in rest && rest <= db.claims.Keys
    ensures forall a :: EarnedTotal(Scanned(db, rest - {k}), server, a) ==
              EarnedTotal(Scanned(db, rest), server, a) + if Mine(k, server, a) && db.claims[k].status == Earned then db.claims[k].intel else 0
    ensures forall a :: HasEarned(Scanned(db, rest - {k}), server, a) <==>
              HasEarned(Scanned(db, rest), server, a) || (Mine(k, server, a) && db.claims[k].status == Earned)
  {
    var before, after := Scanned(db, rest), Scanned(db, rest - {k});
    assert after.claims - {k} == before.claims;
    assert after.(claims := after.claims - {k}) == before;
    assert k in after.claims && after.claims[k] == db.claims[k];
    forall a
      ensures EarnedTotal(after, server, a) ==
                EarnedTotal(before, server, a) + if Mine(k, server, a) && db.claims[k].status == Earned then db.claims[k].intel else 0
      ensures HasEarned(after, server, a) <==> HasEarned(before, server, a) || (Mine(k, server, a) && db.claims[k].status == Earned)
    {
      OneMoreClaimOf(before, after, server, a, k);
    }
  }

  lemma OneMoreClaimOf(before: Db, after: Db, server: int, a: int, k: Key)
    requires k in after.claims && before == after.(claims := after.claims - {k})
    ensures EarnedTotal(after, server, a) ==
              EarnedTotal(before, server, a) + if Mine(k, server, a) && after.claims[k].status == Earned then after.claims[k].intel else 0
    ensures HasEarned(after, server, a) <==> HasEarned(before, server, a) || (Mine(k, server, a) && after.claims[k].status == Earned)
  {
    if Mine(k, server, a) && after.claims[k].status == Earned {
      TotalAfterOneMore(after, server, a, k);
    } else {
      assert Claims(after, server, a, Earned) == Claims(before, server, a, Earned);
    }
    if HasEarned(after, server, a) {
      var j :| j in after.claims && Mine(j, server, a) && after.claims[j].status == Earned;
      if j != k { assert j in before.claims; }
    }
    if HasEarned(before, server, a) {
      var j :| j in before.claims && Mine(j, server, a) && before.claims[j].status == Earned;
      assert j in after.claims;
    }
  }
}
