/** Short runs from deployment in which the documented behaviour fails: each inhabits the bad side of one
    of the exact conditions proved for the ledger. */
module BetWitnesses {
  import opened Common
  import opened BetLedger
  import opened BetInvariant
  import opened BetResolution
  import opened BetRecord
  import opened BetPayout
  import opened BetBatch
  import opened BetBatchRecord
  import opened BetRuns
  import opened BetGuarantees
  import opened BetSolvency

  // ----- how the order is lost -----

  lemma StepOrdered(s: Ledger, step: Step)
    requires Inv(s) && (step.DoPlace? || step.DoCancel? || step.Declare?)
    ensures Inv(After(s, step))
  {
    InvIsRecorded(s);
    StepRecords(s, step);
    OrderedEverywhere(s);
    forall m ensures BookOk(BookAt(After(s, step).books, m)) {
      StepKeepsBook(s, step, m);
    }
    OrderedEverywhere(After(s, step));
  }

  /** The ledger after a bet that was cancelled at once. */
  function PlacedAndCancelled(s: Ledger, user: User, r: BetRequest, maxFee: int): Ledger {
    After(After(s, DoPlace(user, r, maxFee)), DoCancel(user, r.market))
  }

  lemma PlacedAndCancelledIs(s: Ledger, user: User, r: BetRequest, maxFee: int)
    requires Inv(s) && s.vault >= 0 && PlaceBet(s, user, r, maxFee).Ok?
    ensures var t := PlacedAndCancelled(s, user, r, maxFee);
            Inv(t) && OnlyCancelledBetAdded(s, t, r.market, Bet(user, r.outcome, r.amount, s.now, Cancelled))
  {
    BookAtOk(s, r.market);
    PlaceThenCancel(s, user, r, maxFee);
    StepOrdered(s, DoPlace(user, r, maxFee));
    StepOrdered(After(s, DoPlace(user, r, maxFee)), DoCancel(user, r.market));
  }

  /** A bet placed and cancelled is enough for a later resolution to lose the order, whatever wins. */
  lemma CancelledThenResolved(s: Ledger, user: User, r: BetRequest, maxFee: int, ws: seq<Outcome>)
    requires Inv(s) && s.vault >= 0 && PlaceBet(s, user, r, maxFee).Ok?
    ensures var t := PlacedAndCancelled(s, user, r, maxFee); Inv(t) && !Inv(ResolveBets(t, r.market, ws))
  {
    var t := PlacedAndCancelled(s, user, r, maxFee);
    PlacedAndCancelledIs(s, user, r, maxFee);
    ResolveKeepsInvIff(t, r.market, ws);
    var bets := BookAt(t.books, r.market).bets;
    assert user in bets && bets[user].status == Cancelled;
  }

  lemma DeclareIs(s: Ledger, m: MarketId, o: Outcome)
    requires BookAt(s.books, m).market.Some?
    ensures var b := BookAt(s.books, m);
            var mk := b.market.value.(state := Resolved, winning := Some([o]));
            BookAt(After(s, Declare(m, Resolved, Some([o]))).books, m) == b.(market := Some(mk))
  {
  }

  /** If everything at stake is on one outcome, a further bet on it that is placed, cancelled and paid back
      is paid once more when that outcome wins, from money that is not in the pool. */
  lemma CancelledBetIsPaid(s: Ledger, user: User, r: BetRequest, maxFee: int, feeAt: nat -> int)
    requires Inv(s) && s.vault >= 0 && PlaceBet(s, user, r, maxFee).Ok? && Uniform(feeAt, 0)
    requires AllAtStakeOn(BookAt(s.books, r.market), r.outcome) && Pool(BookAt(s.books, r.market)) > 0
    ensures var t := After(PlacedAndCancelled(s, user, r, maxFee), Declare(r.market, Resolved, Some([r.outcome])));
            var b' := BookAt(ResolveBets(t, r.market, [r.outcome]).books, r.market);
            PaidOut(b', b'.registry, feeAt) > Pool(BookAt(s.books, r.market)) == Pool(BookAt(t.books, r.market))
  {
    var t0 := PlacedAndCancelled(s, user, r, maxFee);
    PlacedAndCancelledIs(s, user, r, maxFee);
    DeclaredOverdraws(t0, r.market, user, r.outcome, feeAt);
  }

  lemma DeclaredOverdraws(t0: Ledger, m: MarketId, user: User, o: Outcome, feeAt: nat -> int)
    requires Inv(t0) && Uniform(feeAt, 0)
    requires var b := BookAt(t0.books, m);
             && AllAtStakeOn(b, o) && Pool(b) > 0
             && user in b.bets && b.bets[user].status == Cancelled && b.bets[user].outcome == o
    ensures var t := After(t0, Declare(m, Resolved, Some([o])));
            var b' := BookAt(ResolveBets(t, m, [o]).books, m);
            PaidOut(b', b'.registry, feeAt) > Pool(BookAt(t0.books, m)) == Pool(BookAt(t.books, m))
  {
    var t := After(t0, Declare(m, Resolved, Some([o])));
    StepOrdered(t0, Declare(m, Resolved, Some([o])));
    DeclareIs(t0, m, o);
    BookAtOk(t, m);
    ResolvedOverdraws(t, m, user, o, feeAt);
  }

  lemma ResolvedOverdraws(t: Ledger, m: MarketId, user: User, o: Outcome, feeAt: nat -> int)
    requires var b := BookAt(t.books, m);
             && BookOk(b) && b.market.Some? && b.market.value.winning == Some([o]) && b.market.value.totalStaked > 0
             && AllAtStakeOn(b, o)
             && user in b.bets && b.bets[user].status == Cancelled && b.bets[user].outcome == o
    requires Uniform(feeAt, 0)
    ensures var b' := BookAt(ResolveBets(t, m, [o]).books, m);
            PaidOut(b', b'.registry, feeAt) > Pool(BookAt(t.books, m))
  {
    var b := BookAt(t.books, m);
    assert user in b.registry;
    RevivedBetsOverdrawPool(b, o, feeAt);
  }

  /** A batch that meets all its own conditions but names a market twice goes through, loses the order and
      makes its user forfeit the replaced amounts. */
  lemma RepeatedBatch(s: Ledger, user: User, rs: seq<BetRequest>, maxFee: int, key: IdemKey)
    requires Inv(s) && GuardsPass(s, maxFee) && 0 < |rs| <= MAX_BATCH_SIZE && (user, key) !in s.consumed
    requires Stored(s, user, rs) && Amount(rs) <= GetOr(s.wallets, user, 0) && !Distinct(rs)
    ensures PlaceBets(s, user, rs, maxFee, key).Ok? && !Inv(PlaceBets(s, user, rs, maxFee, key).value)
    ensures Forfeit(s, DoPlaceBatch(user, rs, maxFee, key), StakeOf(user)) == Overpaid(rs) > 0
  {
    assert PlaceBets(s, user, rs, maxFee, key).Ok? by {
      BatchShape(s, user, rs, maxFee, key);
    }
    BatchKeepsInvIff(s, user, rs, maxFee, key);
    RepeatForfeits(s, user, rs, maxFee, key);
  }

  lemma RepeatForfeits(s: Ledger, user: User, rs: seq<BetRequest>, maxFee: int, key: IdemKey)
    requires Inv(s) && PlaceBets(s, user, rs, maxFee, key).Ok? && !Distinct(rs)
    ensures Forfeit(s, DoPlaceBatch(user, rs, maxFee, key), StakeOf(user)) == Overpaid(rs) > 0
  {
    InvIsRecorded(s);
    ForfeitIff(s, DoPlaceBatch(user, rs, maxFee, key));
  }

  // ----- that it can happen -----

  const ALICE: User := 1
  const BOB: User := 2
  const MARKET: MarketId := 7
  const YES: Outcome := 0
  const NO: Outcome := 1

  /** A fresh contract with default fees and two users with ten million tokens each. */
  function Deployment(): Ledger {
    Ledger(map[], map[ALICE := 10_000_000, BOB := 10_000_000], 0, map[], {}, None, map[],
           FeeSources(None, FeeSetting(true, 200), None), Gate.Closed, 0)
  }

  const OPEN := OpenMarket(MARKET, [YES, NO], 100, 0, None)

  function Empty(): Market {
    NewMarket([YES, NO], 100, 0, None)
  }

  /** The deployment with one open market. */
  function Opened(): Ledger {
    Deployment().(books := map[MARKET := NO_BOOK.(market := Some(Empty()))])
  }

  lemma OpenedOk()
    ensures Fresh(Deployment()) && After(Deployment(), OPEN) == Opened() && Inv(Opened())
  {
    var b := NO_BOOK.(market := Some(Empty()));
    assert BookOk(b) by {
      forall o ensures OutcomeOk(b, o) {
      }
      forall u ensures VoterOk(b, Empty(), u) {
      }
    }
  }

  function OnYes(): BetRequest {
    BetRequest(MARKET, YES, 1_000_000)
  }

  /** Alice bets on YES. */
  function AfterAlice(): Ledger {
    After(Opened(), DoPlace(ALICE, OnYes(), 200))
  }

  lemma AliceBets()
    ensures PlaceBet(Opened(), ALICE, OnYes(), 200).Ok?
    ensures AfterAlice().vault == 1_000_000
    ensures var b := BookAt(AfterAlice().books, MARKET);
            && b.bets == map[ALICE := Bet(ALICE, YES, 1_000_000, 0, Active)] && b.stats.totalBets == 1
            && b.market == Some(EnterMarket(Empty(), Bet(ALICE, YES, 1_000_000, 0, Active)))
    ensures AfterAlice().wallets == map[ALICE := 9_000_000, BOB := 10_000_000]
    ensures AfterAlice().fees == Deployment().fees && AfterAlice().gate == Gate.Closed && AfterAlice().now == 0
    ensures EffectiveLimits(AfterAlice(), MARKET) == Limits(MIN_BET_AMOUNT, MAX_BET_AMOUNT)
  {
  }

  lemma BobBets()
    ensures Inv(AfterAlice()) && PlaceBet(AfterAlice(), BOB, OnYes(), 200).Ok?
  {
    OpenedOk();
    AliceBets();
    StepOrdered(Opened(), DoPlace(ALICE, OnYes(), 200));
    BookAtOk(AfterAlice(), MARKET);
    PlaceAcceptedIff(AfterAlice(), BOB, OnYes(), 200);
  }

  /** From deployment: a bet placed and cancelled, then resolved. */
  lemma ResolveWitness()
    ensures var t := PlacedAndCancelled(Opened(), ALICE, OnYes(), 200);
            Inv(t) && !Inv(ResolveBets(t, MARKET, [YES]))
  {
    OpenedOk();
    AliceBets();
    CancelledThenResolved(Opened(), ALICE, OnYes(), 200, [YES]);
  }

  /** Alice and Bob bet on YES, Bob cancels and gets his stake back, YES wins: the payouts exceed the pool. */
  lemma OverdrawWitness(feeAt: nat -> int)
    requires Uniform(feeAt, 0)
    ensures var t := After(PlacedAndCancelled(AfterAlice(), BOB, OnYes(), 200), Declare(MARKET, Resolved, Some([YES])));
            var b' := BookAt(ResolveBets(t, MARKET, [YES]).books, MARKET);
            PaidOut(b', b'.registry, feeAt) > Pool(BookAt(t.books, MARKET))
  {
    AliceBets();
    BobBets();
    CancelledBetIsPaid(AfterAlice(), BOB, OnYes(), 200, feeAt);
  }

  function TwiceOnMarket(): seq<BetRequest> {
    [OnYes(), BetRequest(MARKET, NO, 2_000_000)]
  }

  lemma TwiceFacts()
    ensures var rs := TwiceOnMarket(); rs[..1] == [OnYes()] && Amount(rs) == 3_000_000 && !Distinct(rs)
    ensures Overpaid(TwiceOnMarket()) == 1_000_000
  {
    var rs := TwiceOnMarket();
    assert rs[..1] == [OnYes()] && [OnYes()][..0] == [];
    assert Amount([OnYes()]) == 1_000_000 && Kept([OnYes()], MARKET) == 1_000_000 && Overpaid([OnYes()]) == 0;
    assert rs[0].market == rs[1].market;
  }

  lemma TwiceStored()
    ensures Stored(Opened(), ALICE, TwiceOnMarket())
  {
    var s, r, q := Opened(), OnYes(), BetRequest(MARKET, NO, 2_000_000);
    assert Valid(s, ALICE, r) && Valid(s, ALICE, q);
    StoredSnoc(s, ALICE, [], r);
    StoredSnoc(s, ALICE, [r], q);
    assert [] + [r] == [r] && [r] + [q] == TwiceOnMarket();
  }

  /** From deployment: a two-entry batch naming one market twice goes through and costs Alice the first stake. */
  lemma RepeatedMarketWitness()
    ensures var rs := TwiceOnMarket();
            && Inv(Opened()) && PlaceBets(Opened(), ALICE, rs, 200, 0).Ok?
            && !Inv(PlaceBets(Opened(), ALICE, rs, 200, 0).value)
            && Forfeit(Opened(), DoPlaceBatch(ALICE, rs, 200, 0), StakeOf(ALICE)) == 1_000_000
  {
    OpenedOk();
    TwiceFacts();
    TwiceStored();
    RepeatedBatch(Opened(), ALICE, TwiceOnMarket(), 200, 0);
  }

  /** A stored configuration with fees switched off and a percentage of 200: the first check lets a maximum of 100
      pass, the second refuses it as if fees were on. */
  lemma DisabledFeeWitness()
    ensures var s := Opened().(fees := FeeSources(Some(FeeSetting(false, 200)), FeeSetting(true, 0), None));
            && FirstFeeCheck(s.fees, 100) && !SecondFeeCheck(s.fees, 100)
            && PlaceBet(s, ALICE, OnYes(), 100) == Err(FeeExceedsMax)
            && PlaceBet(s, ALICE, OnYes(), 0) == Err(FeeExceedsMax) && PlaceBet(s, ALICE, OnYes(), 200).Ok?
  {
    assert Opened().wallets[ALICE] == 10_000_000;
  }

  /** With the default fee a maximum of zero refuses a bet that a maximum of 200 lets through. */
  lemma ZeroMaxFeeWitness()
    ensures PlaceBet(Opened(), ALICE, OnYes(), 200).Ok? && PlaceBet(Opened(), ALICE, OnYes(), 0).Err?
  {
    AliceBets();
    ZeroMaxFeeBetIff(Opened(), ALICE, OnYes(), 200);
  }
}
