/** Intel is conserved: what leaves the pending totals is what is delivered. */
module IntelLaws {
  import opened BattlepassTables
  import opened Ticks
  import opened Delivery
  import opened Protocol
  import opened Sums
  import opened Totals

  /** Intel the step awards to the account: the loop pays the tier's intel, a manual tier
      grant the claim's, and an account grant the total of the earned claims at once. */
  ghost function Awarded(w: World, step: Step, server: int, account: int): int {
    match step
    case TryGrant(k, io) =>
      var verdict := Decide(At(w.db, k), Catalogued(w.db, k), io);
      if Mine(k, server, account) && verdict.Paid? then verdict.intel else 0
    case GrantTier(k, io) =>
      if Mine(k, server, account) && ManualPays(At(w.db, k), io) then w.db.claims[k].intel else 0
    case GrantAccount(s, a, io) =>
      if s == server && a == account && io.readError.None? && io.targetError.None? && io.awardError.None?
      then EarnedTotal(w.db, server, account) else 0
    case _ => 0
  }

  /** When the step pays the account, the claim flips are kept, and the loop pays what the
      claim recorded. */
  ghost predicate PaysAsRecorded(w: World, step: Step, server: int, account: int) {
    match step
    case TryGrant(k, io) =>
      Mine(k, server, account) && AutoPays(w, step, k) ==>
        !io.lostFlip && Catalogued(w.db, k).value.intel == w.db.claims[k].intel
    case GrantTier(k, io) => Mine(k, server, account) && ManualPays(At(w.db, k), io) ==> !io.lostMark
    case GrantAccount(s, a, io) =>
      s == server && a == account && io.readError.None? && io.targetError.None? && io.awardError.None? ==> !io.lostMark
    case _ => true
  }

  /** The account's claims this step pays. */
  ghost function PaidClaims(w: World, step: Step, server: int, account: int): map<Key, int> {
    map k | k in w.db.claims && Mine(k, server, account) && Pays(w, step, k) :: w.db.claims[k].intel
  }

  lemma AwardedIsPaidClaims(w: World, step: Step, server: int, account: int)
    requires PaysAsRecorded(w, step, server, account)
    ensures Awarded(w, step, server, account) == Sum(PaidClaims(w, step, server, account))
  {
    var paid := PaidClaims(w, step, server, account);
    match step
    case TryGrant(k, _) => AtMostOneClaim(w, step, server, account, k);
    case GrantTier(k, _) => AtMostOneClaim(w, step, server, account, k);
    case GrantAccount(_, _, _) => assert paid == map[] || paid == Claims(w.db, server, account, Earned);
    case _ => assert paid == map[];
  }

  lemma AtMostOneClaim(w: World, step: Step, server: int, account: int, k: Key)
    requires forall j :: Pays(w, step, j) ==> j == k
    ensures Sum(PaidClaims(w, step, server, account)) ==
            if k in w.db.claims && Mine(k, server, account) && Pays(w, step, k) then w.db.claims[k].intel else 0
  {
    var paid := PaidClaims(w, step, server, account);
    if k in w.db.claims && Mine(k, server, account) && Pays(w, step, k) {
      assert paid == map[][k := w.db.claims[k].intel];
      SumWith(map[], k, w.db.claims[k].intel);
    } else {
      assert paid == map[];
    }
  }

  predicate PurgesOwner(step: Step, server: int, account: int) {
    step.Purge? && step.server == server && (step.account == 0 || step.account == account) && step.done >= 2
  }

  /** Granted claims after a step: those before, and those just paid; none after a purge. */
  lemma GrantedClaimsAfter(w: World, step: Step, server: int, account: int)
    requires Enabled(w, step) && PaysAsRecorded(w, step, server, account)
    ensures
      Claims(Next(w, step).db, server, account, Granted) ==
      if PurgesOwner(step, server, account) then map[]
      else Claims(w.db, server, account, Granted) + PaidClaims(w, step, server, account)
  {
    hide Next, Enabled, PaysAsRecorded, Pays;
    var granted, paid := Claims(w.db, server, account, Granted), PaidClaims(w, step, server, account);
    var after := Claims(Next(w, step).db, server, account, Granted);
    forall k
      ensures k in after <==> !PurgesOwner(step, server, account) && (k in granted || k in paid)
      ensures k in after ==> after[k] == w.db.claims[k].intel
    {
      if Mine(k, server, account) { ClaimAfter(w, step, k); }
    }
  }

  lemma ClaimAfter(w: World, step: Step, k: Key)
    requires Enabled(w, step) && PaysAsRecorded(w, step, k.server, k.account)
    ensures At(Next(w, step).db, k).Holds(Granted) <==>
            !PurgesClaim(step, k) && (At(w.db, k).Holds(Granted) || Pays(w, step, k))
    ensures At(w.db, k).claim.Some? && At(Next(w, step).db, k).claim.Some? ==>
              At(Next(w, step).db, k).claim.value.intel == At(w.db, k).claim.value.intel
    ensures Pays(w, step, k) ==> At(w.db, k).Holds(Earned)
  {
    hide At, Next, Enabled, Catalogued;
    StepOnCell(w, step, k);
  }

  /** Each grant step moves exactly the awarded intel from the pending total to the
      granted one. */
  lemma GrantMovesWhatItDelivers(w: World, step: Step, server: int, account: int)
    requires Enabled(w, step) && PaysAsRecorded(w, step, server, account)
    requires step.TryGrant? || step.GrantTier? || step.GrantAccount?
    ensures EarnedTotal(w.db, server, account) - EarnedTotal(Next(w, step).db, server, account) == Awarded(w, step, server, account)
    ensures GrantedTotal(Next(w, step).db, server, account) - GrantedTotal(w.db, server, account) == Awarded(w, step, server, account)
  {
    var paid := PaidClaims(w, step, server, account);
    GrantedClaimsAfter(w, step, server, account);
    SumUnion(Claims(w.db, server, account, Granted), paid);
    EarnedClaimsAfterGrant(w, step, server, account);
    SumUnion(Claims(Next(w, step).db, server, account, Earned), paid);
    AwardedIsPaidClaims(w, step, server, account);
  }

  lemma EarnedClaimsAfterGrant(w: World, step: Step, server: int, account: int)
    requires Enabled(w, step) && PaysAsRecorded(w, step, server, account)
    requires step.TryGrant? || step.GrantTier? || step.GrantAccount?
    ensures Claims(w.db, server, account, Earned) ==
            Claims(Next(w, step).db, server, account, Earned) + PaidClaims(w, step, server, account)
    ensures Claims(Next(w, step).db, server, account, Earned).Keys !! PaidClaims(w, step, server, account).Keys
  {
    hide Next, Enabled, PaysAsRecorded, Pays;
    var w1 := Next(w, step);
    var before, after, paid := Claims(w.db, server, account, Earned), Claims(w1.db, server, account, Earned), PaidClaims(w, step, server, account);
    forall k
      ensures k in before <==> k in after || k in paid
      ensures !(k in after && k in paid)
      ensures k in after ==> after[k] == before[k]
    {
      if Mine(k, server, account) { EarnedClaimAfterGrant(w, step, k); }
    }
  }

  lemma EarnedClaimAfterGrant(w: World, step: Step, k: Key)
    requires Enabled(w, step) && PaysAsRecorded(w, step, k.server, k.account)
    requires step.TryGrant? || step.GrantTier? || step.GrantAccount?
    ensures At(w.db, k).Holds(Earned) <==> At(Next(w, step).db, k).Holds(Earned) || Pays(w, step, k)
    ensures At(Next(w, step).db, k).Holds(Earned) ==>
              !Pays(w, step, k) && At(Next(w, step).db, k).claim.value.intel == At(w.db, k).claim.value.intel
  {
    hide At, Next, Enabled, Catalogued;
    StepOnCell(w, step, k);
  }

  /** Intel delivered to the account since its claims were last purged. */
  ghost function DeliveredSince(ws: seq<World>, steps: seq<Step>, j: nat, server: int, account: int): int
    requires |ws| == |steps| + 1 && j <= |steps|
  {
    if j == 0 || PurgesOwner(steps[j - 1], server, account) then 0
    else DeliveredSince(ws, steps, j - 1, server, account) + Awarded(ws[j - 1], steps[j - 1], server, account)
  }

  /** On every run the intel delivered since the last purge is the total of the account's
      granted claims. */
  lemma {:induction false} DeliveredEqualsGranted(ws: seq<World>, steps: seq<Step>, j: nat, server: int, account: int)
    requires FreshRun(ws, steps) && j <= |steps|
    requires forall m :: 0 <= m < j ==> PaysAsRecorded(ws[m], steps[m], server, account)
    ensures DeliveredSince(ws, steps, j, server, account) == GrantedTotal(ws[j].db, server, account)
  {
    if j == 0 {
      assert Claims(ws[0].db, server, account, Granted) == map[];
    } else {
      DeliveredEqualsGranted(ws, steps, j - 1, server, account);
      var w, step := ws[j - 1], steps[j - 1];
      GrantedClaimsAfter(w, step, server, account);
      if !PurgesOwner(step, server, account) {
        PaidClaimsWereEarned(w, step, server, account);
        SumUnion(Claims(w.db, server, account, Granted), PaidClaims(w, step, server, account));
        AwardedIsPaidClaims(w, step, server, account);
      }
    }
  }

  lemma PaidClaimsWereEarned(w: World, step: Step, server: int, account: int)
    ensures Claims(w.db, server, account, Granted).Keys !! PaidClaims(w, step, server, account).Keys
  {}

  /** A paying attempt conserves intel exactly when the tier still has the intel it had
      when it was earned. */
  lemma ConservedIffTierUnedited(w: World, k: Key, io: AttemptIo)
    requires k in w.due && k.tier != "" && AutoPays(w, TryGrant(k, io), k) && !io.lostFlip
    ensures
      EarnedTotal(w.db, k.server, k.account) - EarnedTotal(Next(w, TryGrant(k, io)).db, k.server, k.account)
        == Awarded(w, TryGrant(k, io), k.server, k.account)
      <==> Catalogued(w.db, k).value.intel == w.db.claims[k].intel
  {
    var before := Claims(w.db, k.server, k.account, Earned);
    var after := Claims(Next(w, TryGrant(k, io)).db, k.server, k.account, Earned);
    PutChangesOneCell(w.db, k, AttemptCell(At(w.db, k), Catalogued(w.db, k), io));
    SumWithout(before, k);
    assert after == before - {k};
  }

  // ----- Unedited prices -----

  /** Every tier anyone sees on a server has the intel its key is priced at. */
  predicate PricedTiers(tiers: seq<Tier>, server: int, price: (int, string) -> int) {
    forall t :: t in tiers ==> t.intel == price(server, t.key)
  }

  predicate Priced(step: Step, price: (int, string) -> int) {
    (step.Evaluate? ==> PricedTiers(step.run.job.tiers, step.run.job.server, price))
    && (step.EditCatalogue? ==> PricedTiers(step.tiers, step.server, price))
  }

  lemma {:induction false} PricesAreRecorded(ws: seq<World>, steps: seq<Step>, j: nat, price: (int, string) -> int, k: Key)
    requires FreshRun(ws, steps) && j <= |steps|
    requires forall m :: 0 <= m < j ==> Priced(steps[m], price)
    ensures k in ws[j].db.claims ==> ws[j].db.claims[k].intel == price(k.server, k.tier)
    ensures k.server in ws[j].db.tiers ==> PricedTiers(ws[j].db.tiers[k.server], k.server, price)
  {
    if j > 0 {
      PricesAreRecorded(ws, steps, j - 1, price, k);
      ClaimKeepsPrice(ws[j - 1], steps[j - 1], price, k);
      CataloguePriced(ws[j - 1], steps[j - 1], price, k.server);
    }
  }

  lemma ClaimKeepsPrice(w: World, step: Step, price: (int, string) -> int, k: Key)
    requires Enabled(w, step) && Priced(step, price)
    requires k in w.db.claims ==> w.db.claims[k].intel == price(k.server, k.tier)
    ensures k in Next(w, step).db.claims ==> Next(w, step).db.claims[k].intel == price(k.server, k.tier)
  {
    StepOnCell(w, step, k);
    assert At(w.db, k).claim.Some? ==> At(w.db, k).claim.value.intel == price(k.server, k.tier);
    assert k in Next(w, step).db.claims ==> At(Next(w, step).db, k).claim.value.intel == price(k.server, k.tier);
  }

  lemma CataloguePriced(w: World, step: Step, price: (int, string) -> int, server: int)
    requires Enabled(w, step) && Priced(step, price)
    requires server in w.db.tiers ==> PricedTiers(w.db.tiers[server], server, price)
    ensures server in Next(w, step).db.tiers ==> PricedTiers(Next(w, step).db.tiers[server], server, price)
  {
    if step.Evaluate? {
      OutcomeKeepsCatalogue(w.db, step.run);
    }
  }

  /** When no edit changes a tier key's intel, the loop always pays what was recorded. */
  lemma UneditedPricesPayAsRecorded(ws: seq<World>, steps: seq<Step>, j: nat, price: (int, string) -> int, k: Key)
    requires FreshRun(ws, steps) && j < |steps|
    requires forall m :: 0 <= m < j ==> Priced(steps[m], price)
    requires AutoPays(ws[j], steps[j], k)
    ensures Catalogued(ws[j].db, k).value.intel == ws[j].db.claims[k].intel == price(k.server, k.tier)
  {
    PricesAreRecorded(ws, steps, j, price, k);
  }
}
