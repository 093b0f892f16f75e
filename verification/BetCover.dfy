/** What the statistics keep even when batches name a market twice and resolutions revive bets: they never
    fall below the bets they are meant to count. That is all that exact subtractions and solvent
    payouts need. */
module BetCover {
  import opened Common
  import opened BetLedger
  import opened BetInvariant
  import opened BetResolution
  import opened BetRecord

  /** The bets the statistics are held against: all that were not cancelled, or the Active ones only. */
  datatype Basis = NotCancelled | Live

  function CountOf(basis: Basis): View {
    if basis == Live then ActiveBets else Bettors
  }

  function AmountOf(basis: Basis): View {
    if basis == Live then ActiveAmount else Locked
  }

  function AmountOn(basis: Basis, o: Outcome): View {
    if basis == Live then ActiveOn(o) else OnOutcome(o)
  }

  ghost predicate CountsCover(b: Book, basis: Basis) {
    && Sum(CountOf(basis), b) <= b.stats.totalBets <= U32_MAX
    && Sum(CountOf(basis), b) <= b.stats.uniqueBettors
  }

  ghost predicate LockedCovers(b: Book, basis: Basis) {
    Sum(AmountOf(basis), b) <= b.stats.totalLocked <= I128_MAX
  }

  ghost predicate OutcomeCovers(b: Book, basis: Basis, o: Outcome) {
    Sum(AmountOn(basis, o), b) <= GetOr(b.stats.outcomeTotals, o, 0) <= I128_MAX
  }

  ghost predicate Covers(b: Book, basis: Basis) {
    CountsCover(b, basis) && LockedCovers(b, basis) && forall o :: OutcomeCovers(b, basis, o)
  }

  /** Statistics that agree with the bets cover them, on either basis. */
  lemma OrderedIsCovered(b: Book, basis: Basis)
    requires BookOk(b)
    ensures Covers(b, basis)
  {
    BookBounds(b);
    TotalBelow(ActiveBets, Bettors, 1, b.bets, b.registry);
    TotalBelow(ActiveAmount, Locked, 1, b.bets, b.registry);
    forall o ensures OutcomeCovers(b, basis, o) {
      assert OutcomeOk(b, o);
      TotalBelow(ActiveOn(o), OnOutcome(o), 1, b.bets, b.registry);
    }
  }

  // ----- one stored bet -----

  /** How the sums of a basis react to one stored bet. */
  ghost predicate Shifts(b: Book, b': Book, bet: Bet, v: View) {
    Sum(v, b') == Sum(v, b) + Weight(v, bet) - WeightAt(v, b.bets, bet.user)
  }

  lemma StoreShifts(b: Book, b': Book, bet: Bet, v: View)
    requires RegistryOk(b) && b'.bets == StoreBet(b, bet).bets && b'.registry == StoreBet(b, bet).registry
    ensures Shifts(b, b', bet, v)
  {
    StoreTotal(v, b, bet);
    SameSums(b', StoreBet(b, bet));
  }

  lemma WeightsNonNeg(b: Book, basis: Basis, u: User, o: Outcome)
    requires AmountsOk(b)
    ensures WeightAt(CountOf(basis), b.bets, u) >= 0 && WeightAt(AmountOf(basis), b.bets, u) >= 0
    ensures WeightAt(AmountOn(basis, o), b.bets, u) >= 0
  {
  }

  /** Recording a bet, over whatever was there, adds at least as much to the statistics as to the sums. */
  lemma PlaceCovers(b: Book, mk: Market, bet: Bet, overflow: Error, basis: Basis)
    requires RegistryOk(b) && AmountsOk(b) && Covers(b, basis) && bet.status == Active
    requires PlaceInBook(b, mk, bet, overflow).Ok?
    ensures Covers(PlaceInBook(b, mk, bet, overflow).value, basis)
  {
    PlacedCovers(b, bet, PlaceInBook(b, mk, bet, overflow).value, basis);
  }

  lemma PlacedCovers(b: Book, bet: Bet, b': Book, basis: Basis)
    requires RegistryOk(b) && AmountsOk(b) && Covers(b, basis) && bet.status == Active
    requires b'.bets == StoreBet(b, bet).bets && b'.registry == StoreBet(b, bet).registry
    requires AddToStats(b.stats, bet.outcome, bet.amount) == Ok(b'.stats)
    ensures Covers(b', basis)
  {
    AddedStats(b.stats, bet.outcome, bet.amount, b'.stats);
    StoreShifts(b, b', bet, CountOf(basis));
    StoreShifts(b, b', bet, AmountOf(basis));
    PlacedTotals(b, bet, b', basis);
    forall o ensures OutcomeCovers(b', basis, o) {
      StoreShifts(b, b', bet, AmountOn(basis, o));
      PlacedOutcome(b, bet, b', basis, o);
    }
  }

  /** The statistics after one more bet. */
  ghost predicate Added(st: BetStats, outcome: Outcome, amount: int, st': BetStats) {
    && st'.totalBets == st.totalBets + 1 <= U32_MAX && st'.uniqueBettors == st.uniqueBettors + 1
    && st'.totalLocked == st.totalLocked + amount <= I128_MAX
    && GetOr(st'.outcomeTotals, outcome, 0) == GetOr(st.outcomeTotals, outcome, 0) + amount <= I128_MAX
    && forall o | o != outcome :: GetOr(st'.outcomeTotals, o, 0) == GetOr(st.outcomeTotals, o, 0)
  }

  lemma AddedStats(st: BetStats, outcome: Outcome, amount: int, st': BetStats)
    requires AddToStats(st, outcome, amount) == Ok(st')
    ensures Added(st, outcome, amount, st')
  {
  }

  lemma PlacedTotals(b: Book, bet: Bet, b': Book, basis: Basis)
    requires AmountsOk(b) && CountsCover(b, basis) && LockedCovers(b, basis) && bet.status == Active
    requires Shifts(b, b', bet, CountOf(basis)) && Shifts(b, b', bet, AmountOf(basis))
    requires Added(b.stats, bet.outcome, bet.amount, b'.stats)
    ensures CountsCover(b', basis) && LockedCovers(b', basis)
  {
    WeightsNonNeg(b, basis, bet.user, 0);
  }

  lemma PlacedOutcome(b: Book, bet: Bet, b': Book, basis: Basis, o: Outcome)
    requires AmountsOk(b) && OutcomeCovers(b, basis, o) && bet.status == Active
    requires Shifts(b, b', bet, AmountOn(basis, o))
    requires Added(b.stats, bet.outcome, bet.amount, b'.stats)
    ensures OutcomeCovers(b', basis, o)
  {
    WeightsNonNeg(b, basis, bet.user, o);
  }

  /** An Active bet's share in the sums, which the statistics therefore contain. */
  lemma ActiveWithin(b: Book, u: User, basis: Basis)
    requires RegistryOk(b) && AmountsOk(b) && u in b.bets && b.bets[u].status == Active
    ensures Sum(CountOf(basis), b) >= 1 && Sum(AmountOf(basis), b) >= b.bets[u].amount > 0
    ensures Sum(AmountOn(basis, b.bets[u].outcome), b) >= b.bets[u].amount
  {
    assert u in b.registry;
    WeightBelowTotal(CountOf(basis), b.bets, b.registry, u);
    WeightBelowTotal(AmountOf(basis), b.bets, b.registry, u);
    WeightBelowTotal(AmountOn(basis, b.bets[u].outcome), b.bets, b.registry, u);
  }

  lemma SumsNonNeg(b: Book, basis: Basis, o: Outcome)
    requires AmountsOk(b)
    ensures Sum(CountOf(basis), b) >= 0 && Sum(AmountOf(basis), b) >= 0 && Sum(AmountOn(basis, o), b) >= 0
  {
    WeightBelowTotal(CountOf(basis), b.bets, b.registry, 0);
    WeightBelowTotal(AmountOf(basis), b.bets, b.registry, 0);
    WeightBelowTotal(AmountOn(basis, o), b.bets, b.registry, 0);
  }

  /** Counters, locked total, outcome total and pool all contain what a bet takes from them. */
  predicate LeaveIsExactIn(b: Book, mk: Market, bet: Bet) {
    var st, onOutcome := b.stats, GetOr(b.stats.outcomeTotals, bet.outcome, 0);
    && st.totalBets >= 1 && st.uniqueBettors >= 1
    && SatSubI128(mk.totalStaked, bet.amount) == mk.totalStaked - bet.amount >= 0
    && SatSubI128(st.totalLocked, bet.amount) == st.totalLocked - bet.amount >= 0
    && SatSubI128(onOutcome, bet.amount) == onOutcome - bet.amount >= 0
  }

  /** What cancelling or refunding an Active bet takes away is there to be taken: no subtraction saturates.
      Market record and covered statistics suffice. */
  lemma CoveredLeaveIsExact(b: Book, u: User)
    requires RecordOk(b) && Covers(b, Live) && u in b.bets && b.bets[u].status == Active
    ensures b.market.Some? && LeaveIsExactIn(b, b.market.value, b.bets[u])
  {
    ActiveIsCovered(b, u);
    ActiveWithin(b, u, Live);
    assert OutcomeCovers(b, Live, b.bets[u].outcome);
  }

  /** Cancelling takes the same from the statistics as from the sums. */
  lemma CancelCovers(b: Book, u: User, basis: Basis)
    requires RecordOk(b) && Covers(b, basis) && u in b.bets && b.bets[u].status == Active && b.market.Some?
    ensures Covers(CancelInBook(b, b.market.value, b.bets[u]), basis)
  {
    var bet := b.bets[u];
    var c := bet.(status := Cancelled);
    var b' := CancelInBook(b, b.market.value, bet);
    ActiveWithin(b, u, basis);
    StoreShifts(b, b', c, CountOf(basis));
    StoreShifts(b, b', c, AmountOf(basis));
    assert OutcomeCovers(b, basis, bet.outcome);
    forall o ensures OutcomeCovers(b', basis, o) {
      assert OutcomeCovers(b, basis, o);
      StoreShifts(b, b', c, AmountOn(basis, o));
    }
  }

  /** Refunding leaves the statistics alone and adds nothing to the sums. */
  lemma RefundCovers(b: Book, u: User, basis: Basis)
    requires RecordOk(b) && Covers(b, basis) && u in b.bets && b.bets[u].status == Active && b.market.Some?
    ensures Covers(RefundInBook(b, b.market.value, b.bets[u]), basis)
  {
    var bet := b.bets[u];
    var c := bet.(status := Refunded);
    var b' := RefundInBook(b, b.market.value, bet);
    StoreShifts(b, b', c, CountOf(basis));
    StoreShifts(b, b', c, AmountOf(basis));
    forall o ensures OutcomeCovers(b', basis, o) {
      assert OutcomeCovers(b, basis, o);
      StoreShifts(b, b', c, AmountOn(basis, o));
    }
  }

  ghost predicate NoneCancelled(b: Book) {
    forall u | u in b.bets :: b.bets[u].status != Cancelled
  }

  /** Resolution leaves no Active bet, and revives nothing but refunded bets, which are still counted, as long
      as no bet is Cancelled. */
  lemma ResolveCovers(b: Book, ws: seq<Outcome>, basis: Basis)
    requires RecordOk(b) && Covers(b, basis) && (basis == NotCancelled ==> NoneCancelled(b))
    ensures Covers(ResolveBook(b, ws), basis)
  {
    var b' := ResolveBook(b, ws);
    ResolveAll(b, ws);
    ResolvedSum(b, b', ws, CountOf(basis), basis);
    ResolvedSum(b, b', ws, AmountOf(basis), basis);
    forall o ensures OutcomeCovers(b', basis, o) {
      assert OutcomeCovers(b, basis, o);
      ResolvedSum(b, b', ws, AmountOn(basis, o), basis);
    }
  }

  lemma ResolvedSum(b: Book, b': Book, ws: seq<Outcome>, v: View, basis: Basis)
    requires RegistryOk(b) && AmountsOk(b) && (basis == NotCancelled ==> NoneCancelled(b))
    requires b'.registry == b.registry && b'.bets == map u | u in b.bets :: Settle(b.bets[u], ws)
    requires v == CountOf(basis) || v == AmountOf(basis) || (exists o :: v == AmountOn(basis, o))
    ensures Sum(v, b') <= Sum(v, b)
  {
    if basis == Live {
      TotalZero(v, b'.bets, b'.registry);
      WeightBelowTotal(v, b.bets, b.registry, 0);
    } else {
      TotalSame(v, v, b.bets, b'.bets, b.registry);
    }
  }

  /** The recorded pool is at most what the covered statistics can count. */
  lemma PoolBounded(b: Book)
    requires RecordOk(b) && Covers(b, NotCancelled)
    ensures 0 <= Pool(b) <= U32_MAX * MAX_BET_AMOUNT
  {
    StakesNonNeg(b);
    TotalBelow(Staked, Bettors, MAX_BET_AMOUNT, b.bets, b.registry);
    MulMono(MAX_BET_AMOUNT, Sum(Bettors, b), U32_MAX);
    if b.market.Some? {
      StakesBelow(b, b.registry);
    }
  }

  lemma {:induction false} StakesBelow(b: Book, us: seq<User>)
    requires RecordOk(b) && b.market.Some?
    ensures SumUsers(b.market.value.stakes, us) <= Total(Staked, b.bets, us)
  {
    if us == [] {
    } else {
      StakesBelow(b, us[..|us| - 1]);
      assert Matches(b.bets, b.market.value, us[|us| - 1]);
    }
  }
}
