/** Intel totals of an account's claims. */
module Totals {
  import opened BattlepassTables
  import opened Sums

  predicate Mine(k: Key, server: int, account: int) {
    k.server == server && k.account == account
  }

  /** The account's claims of one status, with their intel. */
  ghost function Claims(db: Db, server: int, account: int, status: ClaimStatus): map<Key, int> {
    map k | k in db.claims && Mine(k, server, account) && db.claims[k].status == status :: db.claims[k].intel
  }

  /** earnedTotals, for one account: its earned, ungranted intel. */
  ghost function EarnedTotal(db: Db, server: int, account: int): int {
    Sum(Claims(db, server, account, Earned))
  }

  ghost function GrantedTotal(db: Db, server: int, account: int): int {
    Sum(Claims(db, server, account, Granted))
  }

  lemma TotalAfterOneMore(db: Db, server: int, account: int, k: Key)
    requires k in db.claims && Mine(k, server, account) && db.claims[k].status == Earned
    ensures EarnedTotal(db, server, account) ==
            EarnedTotal(db.(claims := db.claims - {k}), server, account) + db.claims[k].intel
  {
    SumWithout(Claims(db, server, account, Earned), k);
    assert Claims(db, server, account, Earned) - {k} == Claims(db.(claims := db.claims - {k}), server, account, Earned);
  }
}
